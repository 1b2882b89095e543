/** kernel/memory/page_allocator.cpp: ranges of addresses kept in a fixed array, in order,
    with gaps between them; inserting into and cutting out of them in place. */
module PageExtents {

  datatype Extent = Extent(begin: nat, end: nat)

  predicate Has(e: Extent, x: nat) { e.begin <= x < e.end }

  /** The addresses a list stands for. */
  ghost predicate In(s: seq<Extent>, x: nat) { exists i :: 0 <= i < |s| && Has(s[i], x) }

  /** Ascending, not empty, and no two touch. */
  ghost predicate Normal(s: seq<Extent>) {
    && (forall i :: 0 <= i < |s| ==> s[i].begin < s[i].end)
    && (forall i, j :: 0 <= i < j < |s| ==> s[i].end < s[j].begin)
  }

  // ------------------------------------------------------------------ inserting

  /** The first extent from `i` on that does not end before `e`. */
  function First(s: seq<Extent>, e: Extent, i: nat): (r: nat)
    requires i <= |s|
    ensures i <= r <= |s| && (r < |s| ==> s[r].end >= e.begin)
    ensures forall k :: i <= k < r ==> s[k].end < e.begin
    decreases |s| - i
  {
    if i < |s| && s[i].end < e.begin then First(s, e, i + 1) else i
  }

  function Hull(e: Extent, f: Extent): Extent {
    Extent(if f.begin < e.begin then f.begin else e.begin, if f.end > e.end then f.end else e.end)
  }

  /** `e` grown by the extents from `i` on that it meets, and where they stop. */
  function Absorb(s: seq<Extent>, i: nat, e: Extent): (r: (nat, Extent))
    requires i <= |s|
    ensures i <= r.0 <= |s|
    decreases |s| - i
  {
    if i < |s| && s[i].begin <= e.end then Absorb(s, i + 1, Hull(e, s[i])) else (i, e)
  }

  /** Where `insert_extent` takes the `k`th of `n` following extents from, when it moves
      them down by `step`, the last one first: an extent that has been overwritten is gone. */
  function Source(k: nat, step: nat, n: nat): (r: nat)
    requires k < n
    ensures k <= r < n
    decreases n - k
  {
    if step > 0 && k + step < n then Source(k + step, step, n) else k
  }

  function Moved(tail: seq<Extent>, step: nat): (r: seq<Extent>)
    ensures |r| == |tail|
  {
    seq(|tail|, k requires 0 <= k < |tail| => tail[Source(k, step, |tail|)])
  }

  /** The extents `insert_extent` absorbs, and those that follow. */
  function Absorbed(s: seq<Extent>, e: Extent): nat { Absorb(s, First(s, e, 0), e).0 - First(s, e, 0) }
  function Following(s: seq<Extent>, e: Extent): nat { |s| - Absorb(s, First(s, e, 0), e).0 }

  /** What `insert_extent` leaves. */
  function Inserted(s: seq<Extent>, e: Extent): seq<Extent> {
    var first := First(s, e, 0);
    var r := Absorb(s, first, e);
    s[..first] + [r.1] + Moved(s[r.0..], if r.0 - first > 1 then r.0 - first - 1 else 0)
  }

  /** Whether the move reads nothing it has overwritten. */
  predicate MovesSafely(s: seq<Extent>, e: Extent) { Absorbed(s, e) <= 1 || Following(s, e) < Absorbed(s, e) }

  lemma {:induction false} SourceSame(k: nat, step: nat, n: nat)
    requires k < n && (step == 0 || k + step >= n)
    ensures Source(k, step, n) == k
  {
  }

  lemma MovedSame(tail: seq<Extent>, step: nat)
    requires step == 0 || |tail| <= step
    ensures Moved(tail, step) == tail
  {
    forall k | 0 <= k < |tail| ensures Moved(tail, step)[k] == tail[k] {
      SourceSame(k, step, |tail|);
    }
  }

  /** Absorbing from a point past which everything ends at or after `e` begins. */
  lemma {:induction false} AbsorbParts(s: seq<Extent>, i: nat, e: Extent)
    requires Normal(s) && i <= |s| && e.begin < e.end && (i < |s| ==> s[i].end >= e.begin)
    ensures var (last, h) := Absorb(s, i, e);
            && h.begin <= e.begin && e.end <= h.end
            && (forall x: nat :: Has(h, x) <==> Has(e, x) || exists k :: i <= k < last && Has(s[k], x))
            && (forall k :: last <= k < |s| ==> h.end < s[k].begin)
            && (h.begin == e.begin || (i < |s| && h.begin == s[i].begin))
    decreases |s| - i
  {
    if i < |s| && s[i].begin <= e.end {
      var g := Hull(e, s[i]);
      AbsorbParts(s, i + 1, g);
      var (last, h) := Absorb(s, i + 1, g);
      forall x: nat ensures Has(h, x) <==> Has(e, x) || exists k :: i <= k < last && Has(s[k], x) {
        if Has(g, x) { assert Has(e, x) || Has(s[i], x); }
      }
    }
  }

  /** Unless it overwrites what it has yet to read, inserting is union. */
  lemma InsertUnion(s: seq<Extent>, e: Extent)
    requires Normal(s) && e.begin < e.end && MovesSafely(s, e)
    ensures Normal(Inserted(s, e))
    ensures forall x: nat :: In(Inserted(s, e), x) <==> In(s, x) || Has(e, x)
  {
    var first := First(s, e, 0);
    AbsorbParts(s, first, e);
    var (last, h) := Absorb(s, first, e);
    var r := Inserted(s, e);
    MovedSame(s[last..], if last - first > 1 then last - first - 1 else 0);
    assert r == s[..first] + [h] + s[last..];
    hide Has, In, Absorb, First, Inserted, Moved;
    NormalJoin(s, first, last, h);
    forall x: nat ensures In(r, x) <==> In(s, x) || Has(e, x) {
      SplitIn(s, first, last, x);
      JoinIn(s[..first], h, s[last..], x);
    }
  }

  lemma NormalJoin(s: seq<Extent>, first: nat, last: nat, h: Extent)
    requires Normal(s) && first <= last <= |s| && h.begin < h.end
    requires (forall k :: 0 <= k < first ==> s[k].end < h.begin) && forall k :: last <= k < |s| ==> h.end < s[k].begin
    ensures Normal(s[..first] + [h] + s[last..])
  {
    NormalAround(s[..first], h, s[last..]);
  }

  lemma NormalAround(a: seq<Extent>, h: Extent, b: seq<Extent>)
    requires Normal(a) && Normal(b) && h.begin < h.end && (forall k :: 0 <= k < |a| ==> a[k].end < h.begin)
             && forall k :: 0 <= k < |b| ==> h.end < b[k].begin
    ensures Normal(a + [h] + b)
  {
    hide Normal;
    NormalOne(h);
    NormalConcat([h], b, h.end);
    NormalBefore(a, [h] + b, h.begin);
    assert a + ([h] + b) == a + [h] + b;
  }

  lemma NormalOne(h: Extent)
    requires h.begin < h.end
    ensures Normal([h])
  {
  }

  lemma NormalBefore(p: seq<Extent>, q: seq<Extent>, m: nat)
    requires Normal(p) && Normal(q) && (forall k :: 0 <= k < |p| ==> p[k].end < m) && q != [] && q[0].begin == m
    ensures Normal(p + q)
  {
    forall i | 0 <= i < |p + q| ensures (p + q)[i] == if i < |p| then p[i] else q[i - |p|] {
    }
    forall k | 0 <= k < |q| ensures m <= q[k].begin {
      if k > 0 { assert q[0].end < q[k].begin; }
    }
  }

  lemma SplitIn(s: seq<Extent>, first: nat, last: nat, x: nat)
    requires first <= last <= |s|
    ensures In(s, x) <==> In(s[..first], x) || In(s[last..], x) || exists k :: first <= k < last && Has(s[k], x)
  {
    hide Has;
    forall i | 0 <= i < |s| && Has(s[i], x)
           ensures In(s[..first], x) || In(s[last..], x) || exists k :: first <= k < last && Has(s[k], x) {
      if i < first { assert s[..first][i] == s[i]; }
      if i >= last { assert s[last..][i - last] == s[i]; }
    }
    forall i | 0 <= i < first && Has(s[..first][i], x) ensures In(s, x) { assert Has(s[i], x); }
    forall i | 0 <= i < |s| - last && Has(s[last..][i], x) ensures In(s, x) { assert Has(s[last + i], x); }
  }

  lemma JoinIn(a: seq<Extent>, h: Extent, b: seq<Extent>, x: nat)
    ensures In(a + [h] + b, x) <==> In(a, x) || Has(h, x) || In(b, x)
  {
    hide Has;
    var r := a + [h] + b;
    assert r[|a|] == h;
    forall i | 0 <= i < |a| && Has(a[i], x) ensures In(r, x) { assert r[i] == a[i]; }
    forall i | 0 <= i < |b| && Has(b[i], x) ensures In(r, x) { assert r[|a| + 1 + i] == b[i]; }
    forall i | 0 <= i < |r| && Has(r[i], x) ensures In(a, x) || Has(h, x) || In(b, x) {
      if i < |a| { assert r[i] == a[i]; }
      if i > |a| { assert r[i] == b[i - |a| - 1]; }
    }
  }

  lemma {:induction false} SourceLater(k: nat, step: nat, n: nat)
    requires k < n && step > 0 && (k > 0 || step < n)
    ensures Source(k, step, n) > 0
    decreases n - k
  {
    if k + step < n { SourceLater(k + step, step, n); }
  }

  /** An extent that follows is lost when as many follow as are absorbed. */
  lemma InsertLoses(s: seq<Extent>, e: Extent)
    requires Normal(s) && e.begin < e.end && !MovesSafely(s, e)
    ensures var last := First(s, e, 0) + Absorbed(s, e);
            last < |s| && In(s, s[last].begin) && !In(Inserted(s, e), s[last].begin)
  {
    var first := First(s, e, 0);
    AbsorbParts(s, first, e);
    var (last, h) := Absorb(s, first, e);
    var x, step := s[last].begin, last - first - 1;
    assert Has(s[last], x);
    var tail := s[last..];
    forall k | 0 <= k < |tail| ensures !Has(Moved(tail, step)[k], x) {
      SourceLater(k, step, |tail|);
    }
    JoinIn(s[..first], h, Moved(tail, step), x);
  }

  /** Inserting is union exactly when at most one extent is absorbed or fewer follow than
      are absorbed. */
  lemma InsertExact(s: seq<Extent>, e: Extent)
    requires Normal(s) && e.begin < e.end
    ensures (forall x: nat :: In(Inserted(s, e), x) <==> In(s, x) || Has(e, x)) <==> MovesSafely(s, e)
    ensures Normal(Inserted(s, e)) <==> MovesSafely(s, e)
  {
    if MovesSafely(s, e) {
      InsertUnion(s, e);
    } else {
      InsertLoses(s, e);
      InsertRepeats(s, e);
    }
  }

  /** ... and the list is no longer in order. */
  lemma InsertRepeats(s: seq<Extent>, e: Extent)
    requires Normal(s) && e.begin < e.end && !MovesSafely(s, e)
    ensures !Normal(Inserted(s, e))
  {
    var first := First(s, e, 0);
    var (last, h) := Absorb(s, first, e);
    var step, tail := last - first - 1, s[last..];
    var far := Source(0, step, |tail|);
    SourceLater(0, step, |tail|);
    SourceEnds(0, step, |tail|);
    var r := Inserted(s, e);
    assert r[first + 1] == tail[far];
    assert r[first + 1 + far] == tail[far];
  }

  /** What is read last has not been overwritten. */
  lemma {:induction false} SourceEnds(k: nat, step: nat, n: nat)
    requires k < n
    ensures Source(Source(k, step, n), step, n) == Source(k, step, n)
    decreases n - k
  {
    if step > 0 && k + step < n { SourceEnds(k + step, step, n); }
  }

  /** Filling the gap between the first two of four extents. */
  lemma InsertExample()
    ensures var s := [Extent(4096, 8192), Extent(12288, 16384), Extent(20480, 24576), Extent(28672, 32768)];
            var r := Inserted(s, Extent(8192, 12288));
            && Normal(s)
            && r == [Extent(4096, 16384), Extent(28672, 32768), Extent(28672, 32768)]
            && In(s, 20480) && !In(r, 20480)
  {
    var s := [Extent(4096, 8192), Extent(12288, 16384), Extent(20480, 24576), Extent(28672, 32768)];
    var e := Extent(8192, 12288);
    assert First(s, e, 0) == 0;
    assert Absorb(s, 2, Extent(4096, 16384)) == (2, Extent(4096, 16384));
    assert Absorb(s, 1, Extent(4096, 12288)) == (2, Extent(4096, 16384));
    assert Absorb(s, 0, e) == (2, Extent(4096, 16384));
    assert s[2..] == [Extent(20480, 24576), Extent(28672, 32768)];
    assert Source(1, 1, 2) == 1 && Source(0, 1, 2) == 1;
    assert Moved(s[2..], 1) == [Extent(28672, 32768), Extent(28672, 32768)];
    assert Has(s[2], 20480);
  }

  /** `insert_extent`.  A full table refuses a range that meets no other. */
  method InsertExtent(a: array<Extent>, count: nat, added: Extent) returns (ok: bool, n: nat)
    requires count <= a.Length
    modifies a
    ensures ok <==> Absorbed(old(a[..count]), added) > 0 || count < a.Length
    ensures n <= a.Length && a[..n] == if ok then Inserted(old(a[..count]), added) else old(a[..count])
  {
    hide *;
    ghost var s := a[..count];
    var first, last, e := Scan(a, count, added);
    InsertedIs(s, added, first, last, e);
    var removed := last - first;
    if removed == 0 && count == a.Length { return false, count; }
    assert s[..first] == a[..first] && s[last..] == a[last..count];
    MoveTail(a, count, last, removed);
    a[first] := e;
    n := count - removed + 1;
    ok := true;
    assert a[..n] == a[..first] + [e] + a[first + 1..n];
  }

  /** The two loops of `insert_extent` that find what the new range meets. */
  method Scan(a: array<Extent>, count: nat, added: Extent) returns (first: nat, last: nat, e: Extent)
    requires count <= a.Length
    ensures first <= last <= count && First(a[..count], added, 0) == first
            && Absorb(a[..count], first, added) == (last, e)
  {
    hide *;
    ghost var s := a[..count];
    first, e := 0, added;
    while first < count && a[first].end < e.begin
      invariant first <= count && First(s, e, 0) == First(s, e, first)
    {
      FirstStep(s, e, first);
      first := first + 1;
    }
    FirstStep(s, e, first);
    last := first;
    while last < count && a[last].begin <= e.end
      invariant first <= last <= count && Absorb(s, first, added) == Absorb(s, last, e)
    {
      AbsorbStep(s, last, e);
      e := Hull(e, a[last]);
      last := last + 1;
    }
    AbsorbStep(s, last, e);
  }

  lemma FirstStep(s: seq<Extent>, e: Extent, i: nat)
    requires i <= |s|
    ensures First(s, e, i) == if i < |s| && s[i].end < e.begin then First(s, e, i + 1) else i
  {
  }

  lemma AbsorbStep(s: seq<Extent>, i: nat, e: Extent)
    requires i <= |s|
    ensures Absorb(s, i, e) == if i < |s| && s[i].begin <= e.end then Absorb(s, i + 1, Hull(e, s[i])) else (i, e)
  {
  }

  lemma InsertedIs(s: seq<Extent>, e: Extent, first: nat, last: nat, h: Extent)
    requires first <= last <= |s| && First(s, e, 0) == first && Absorb(s, first, e) == (last, h)
    ensures Inserted(s, e) == s[..first] + [h] + Moved(s[last..], if last - first > 1 then last - first - 1 else 0)
    ensures Absorbed(s, e) == last - first && Following(s, e) == |s| - last
  {
  }

  /** The copy loop of `insert_extent`, last extent first. */
  method MoveTail(a: array<Extent>, count: nat, last: nat, removed: nat)
    requires removed <= last <= count <= a.Length && (removed == 0 ==> count < a.Length)
    modifies a
    ensures a[..last - removed] == old(a[..last - removed])
    ensures a[last - removed + 1..count - removed + 1] == Moved(old(a[last..count]), if removed > 1 then removed - 1
                                                                else 0)
  {
    hide *;
    ghost var was := a[..];
    var i := count;
    ShiftedStart(was, last, count, removed);
    while i > last
      invariant last <= i <= count && a[..] == Shifted(was, last, count, removed, i)
    {
      ShiftedStep(was, last, count, removed, i);
      ghost var now := a[..];
      assert a[i - 1] == now[i - 1];
      a[i - removed] := a[i - 1];
      assert a[..] == now[i - removed := now[i - 1]];
      i := i - 1;
    }
    ShiftedEnd(was, last, count, removed);
    ghost var all := a[..];
    assert a[..last - removed] == all[..last - removed]
           && a[last - removed + 1..count - removed + 1] == all[last - removed + 1..count - removed + 1];
  }

  /** The table when the extents from `i` on have been moved. */
  ghost function Shifted(was: seq<Extent>, last: nat, count: nat, removed: nat, i: nat): (r: seq<Extent>)
    requires removed <= last <= i <= count <= |was| && (removed == 0 ==> count < |was|)
    ensures |r| == |was|
  {
    seq(|was|, p requires 0 <= p < |was| => ShiftedAt(was, last, count, removed, i, p))
  }

  ghost function ShiftedAt(was: seq<Extent>, last: nat, count: nat, removed: nat, i: nat, p: nat): Extent
    requires removed <= last <= i <= count <= |was| && p < |was|
  {
    if i - removed + 1 <= p <= count - removed
       then was[last + Source(p - (last - removed + 1), if removed > 1 then removed - 1 else 0, count - last)]
    else was[p]
  }

  lemma ShiftedStart(was: seq<Extent>, last: nat, count: nat, removed: nat)
    requires removed <= last <= count <= |was| && (removed == 0 ==> count < |was|)
    ensures Shifted(was, last, count, removed, count) == was
  {
  }

  /** Where the next extent is read, its source is what it would be taken from. */
  lemma ShiftedStep(was: seq<Extent>, last: nat, count: nat, removed: nat, i: nat)
    requires removed <= last < i <= count <= |was| && (removed == 0 ==> count < |was|)
    ensures Shifted(was, last, count, removed, i)[i - removed :=
                                                  Shifted(was, last, count, removed, i)[i - 1]] == Shifted(was, last,
                                                      count, removed, i - 1)
  {
    var k, step := i - 1 - last, if removed > 1 then removed - 1 else 0;
    assert Source(k, step, count - last) == if step > 0 && k + step < count - last
           then Source(k + step, step, count - last) else k;
  }

  lemma ShiftedEnd(was: seq<Extent>, last: nat, count: nat, removed: nat)
    requires removed <= last <= count <= |was| && (removed == 0 ==> count < |was|)
    ensures var r := Shifted(was, last, count, removed, last);
            && r[..last - removed] == was[..last - removed]
            && r[last - removed + 1..count - removed + 1] == Moved(was[last..count], if removed > 1 then removed - 1
                                                                   else 0)
  {
  }

  // -------------------------------------------------------------------- cutting

  /** `e` lies strictly inside `c`. */
  predicate Splits(c: Extent, e: Extent) { c.begin < e.begin && e.end < c.end }

  /** What is left of `c` without `e`; of two halves, the upper one only when there is room
      to record it. */
  function Pieces(c: Extent, e: Extent, room: bool): seq<Extent> {
    if e.end <= c.begin || e.begin >= c.end then [c]
    else if e.begin <= c.begin && e.end >= c.end then []
    else if e.begin <= c.begin then [Extent(e.end, c.end)]
    else if e.end >= c.end then [Extent(c.begin, e.begin)]
    else if room then [Extent(c.begin, e.begin), Extent(e.end, c.end)]
    else [Extent(c.begin, e.begin)]
  }

  function Cut(s: seq<Extent>, e: Extent, room: bool): seq<Extent> {
    if s == [] then [] else Pieces(s[0], e, room) + Cut(s[1..], e, room)
  }

  /** An address in an upper half there was no room for. */
  ghost predicate Dropped(s: seq<Extent>, e: Extent, x: nat) {
    exists i :: 0 <= i < |s| && Splits(s[i], e) && e.end <= x < s[i].end
  }

  /** Cutting is difference, less the upper half of a split when the table is full. */
  lemma {:induction false} CutMeans(s: seq<Extent>, e: Extent, room: bool, x: nat)
    requires Normal(s) && e.begin < e.end
    ensures In(Cut(s, e, room), x) <==> In(s, x) && !Has(e, x) && (room || !Dropped(s, e, x))
  {
    if s != [] {
      NormalTail(s);
      CutMeans(s[1..], e, room, x);
      InHead(s, x);
      InConcat(Pieces(s[0], e, room), Cut(s[1..], e, room), x);
      PiecesMean(s[0], e, room, x);
      DroppedHead(s, e, x);
      if Splits(s[0], e) && In(s[1..], x) { After(s, x); }
      if Dropped(s[1..], e, x) { DroppedIn(s[1..], e, x); After(s, x); }
    }
  }

  lemma NormalTail(s: seq<Extent>)
    requires Normal(s) && s != []
    ensures Normal(s[1..])
  {
  }

  lemma InHead(s: seq<Extent>, x: nat)
    requires s != []
    ensures In(s, x) <==> Has(s[0], x) || In(s[1..], x)
  {
    hide Has;
    forall i | 0 <= i < |s| && Has(s[i], x) ensures Has(s[0], x) || In(s[1..], x) {
      if i > 0 { assert s[1..][i - 1] == s[i]; }
    }
    forall i | 0 <= i < |s[1..]| && Has(s[1..][i], x) ensures In(s, x) { assert Has(s[i + 1], x); }
  }

  lemma InConcat(a: seq<Extent>, b: seq<Extent>, x: nat)
    ensures In(a + b, x) <==> In(a, x) || In(b, x)
  {
    hide Has;
    var r := a + b;
    forall i | 0 <= i < |a| && Has(a[i], x) ensures In(r, x) { assert r[i] == a[i]; }
    forall i | 0 <= i < |b| && Has(b[i], x) ensures In(r, x) { assert r[|a| + i] == b[i]; }
    forall i | 0 <= i < |r| && Has(r[i], x) ensures In(a, x) || In(b, x) {
      if i < |a| { assert r[i] == a[i]; } else { assert r[i] == b[i - |a|]; }
    }
  }

  lemma PiecesMean(c: Extent, e: Extent, room: bool, x: nat)
    requires c.begin < c.end && e.begin < e.end
    ensures In(Pieces(c, e, room), x) <==> Has(c, x) && !Has(e, x) && (room || !(Splits(c, e) && x >= e.end))
  {
    var r := Pieces(c, e, room);
    if |r| > 0 { InHead(r, x); }
    if |r| > 1 { InHead(r[1..], x); }
  }

  lemma DroppedHead(s: seq<Extent>, e: Extent, x: nat)
    requires s != []
    ensures Dropped(s, e, x) <==> (Splits(s[0], e) && e.end <= x < s[0].end) || Dropped(s[1..], e, x)
  {
    hide Splits;
    forall i | 0 <= i < |s| && Splits(s[i], e) && e.end <= x < s[i].end
      ensures (Splits(s[0], e) && e.end <= x < s[0].end) || Dropped(s[1..], e, x)
    {
      if i > 0 { assert s[1..][i - 1] == s[i]; }
    }
    forall i | 0 <= i < |s[1..]| && Splits(s[1..][i], e) && e.end <= x < s[1..][i].end ensures Dropped(s, e, x) {
      assert Splits(s[i + 1], e);
    }
  }

  lemma DroppedIn(s: seq<Extent>, e: Extent, x: nat)
    requires Dropped(s, e, x) && e.begin < e.end
    ensures In(s, x)
  {
    var i :| 0 <= i < |s| && Splits(s[i], e) && e.end <= x < s[i].end;
    assert Has(s[i], x);
  }

  /** The rest of a list lies past its first extent. */
  lemma After(s: seq<Extent>, x: nat)
    requires Normal(s) && s != [] && In(s[1..], x)
    ensures s[0].end < x
  {
    var i :| 0 <= i < |s[1..]| && Has(s[1..][i], x);
    assert s[1..][i] == s[i + 1];
  }

  /** Cutting keeps a list in order. */
  lemma {:induction false} CutNormal(s: seq<Extent>, e: Extent, room: bool)
    requires Normal(s) && e.begin < e.end
    ensures Normal(Cut(s, e, room))
    ensures forall k :: 0 <= k < |Cut(s, e, room)| ==> s != [] && s[0].begin <= Cut(s, e, room)[k].begin
  {
    if s != [] {
      NormalTail(s);
      CutNormal(s[1..], e, room);
      var p, q := Pieces(s[0], e, room), Cut(s[1..], e, room);
      assert Normal(p) && forall k :: 0 <= k < |p| ==> s[0].begin <= p[k].begin && p[k].end <= s[0].end;
      forall k | 0 <= k < |q| ensures s[0].end < q[k].begin { assert s[1..][0] == s[1]; }
      hide Pieces, Cut;
      NormalConcat(p, q, s[0].end);
      assert Cut(s, e, room) == p + q by { CutStep(s, e, room); }
    }
  }

  lemma CutStep(s: seq<Extent>, e: Extent, room: bool)
    ensures Cut(s, e, room) == if s == [] then [] else Pieces(s[0], e, room) + Cut(s[1..], e, room)
  {
  }

  lemma NormalConcat(p: seq<Extent>, q: seq<Extent>, m: nat)
    requires Normal(p) && Normal(q) && (forall k :: 0 <= k < |p| ==> p[k].end <= m) && forall k :: 0 <= k < |q| ==>
             m < q[k].begin
    ensures Normal(p + q)
  {
    forall i | 0 <= i < |p + q| ensures (p + q)[i] == if i < |p| then p[i] else q[i - |p|] {
    }
  }

  /** Nothing in a list is split by `e`. */
  ghost predicate Quiet(s: seq<Extent>, e: Extent) { forall i :: 0 <= i < |s| ==> !Splits(s[i], e) }

  /** If `e` meets the first extent, it splits no other. */
  lemma QuietTail(s: seq<Extent>, e: Extent)
    requires Normal(s) && s != [] && e.begin < s[0].end
    ensures Quiet(s[1..], e)
  {
    forall i | 0 <= i < |s[1..]| ensures !Splits(s[1..][i], e) { assert s[1..][i] == s[i + 1]; }
  }

  lemma SplitsIs(c: Extent, e: Extent)
    ensures Splits(c, e) <==> c.begin < e.begin && e.end < c.end
  {
  }

  lemma PiecesParts(c: Extent, e: Extent, room: bool)
    requires e.begin < e.end && c.begin < c.end
    ensures e.end <= c.begin || e.begin >= c.end ==> Pieces(c, e, room) == [c]
    ensures e.begin <= c.begin && e.end >= c.end ==> Pieces(c, e, room) == []
    ensures e.begin <= c.begin < e.end < c.end ==> Pieces(c, e, room) == [Extent(e.end, c.end)]
    ensures c.begin < e.begin < c.end <= e.end ==> Pieces(c, e, room) == [Extent(c.begin, e.begin)]
    ensures Splits(c, e) ==> Pieces(c, e, room) == [Extent(c.begin, e.begin)] + if room then [Extent(e.end, c.end)]
            else []
  {
  }

  /** Entry `i` taken out, the rest moved down. */
  method RemoveAt(a: array<Extent>, i: nat, n: nat)
    requires i < n <= a.Length
    modifies a
    ensures a[..i] == old(a[..i]) && a[i..n - 1] == old(a[i + 1..n])
  {
    hide *;
    ghost var was := a[..];
    var j := i + 1;
    GapAt(was, i, j);
    while j < n
      invariant i + 1 <= j <= n && a[..] == Gap(was, i, j)
    {
      GapAt(was, i, j);
      ghost var now := a[..];
      assert a[j] == now[j];
      a[j - 1] := a[j];
      assert a[..] == now[j - 1 := now[j]];
      j := j + 1;
    }
    GapEnd(was, i, n);
    ghost var all := a[..];
    assert a[..i] == all[..i] && a[i..n - 1] == all[i..n - 1];
  }

  /** Entry `i` gone, those up to `j` moved down by one. */
  ghost function Gap(was: seq<Extent>, i: nat, j: nat): (r: seq<Extent>)
    requires i < j <= |was|
    ensures |r| == |was|
  {
    was[..i] + was[i + 1..j] + was[j - 1..]
  }

  lemma GapAt(was: seq<Extent>, i: nat, j: nat)
    requires i < j <= |was|
    ensures Gap(was, i, i + 1) == was
    ensures j < |was| ==> Gap(was, i, j)[j - 1 := Gap(was, i, j)[j]] == Gap(was, i, j + 1)
  {
    assert was[i + 1..i + 1] == [] && was[..i] + was[i..] == was;
  }

  lemma GapEnd(was: seq<Extent>, i: nat, n: nat)
    requires i < n <= |was|
    ensures Gap(was, i, n)[..i] == was[..i] && Gap(was, i, n)[i..n - 1] == was[i + 1..n]
  {
  }

  /** Entries from `i` on moved up, and one put there. */
  method PutAt(a: array<Extent>, i: nat, n: nat, e: Extent)
    requires i <= n < a.Length
    modifies a
    ensures a[..n + 1] == old(a[..i]) + [e] + old(a[i..n])
  {
    ghost var was := a[..];
    var j := n;
    while j > i
      invariant i <= j <= n
      invariant forall k :: 0 <= k <= j ==> a[k] == was[k]
      invariant forall k :: j < k <= n ==> a[k] == was[k - 1]
    {
      a[j] := a[j - 1];
      j := j - 1;
    }
    a[i] := e;
  }

  method PutAfter(a: array<Extent>, i: nat, n: nat, e: Extent)
    requires i < n < a.Length
    modifies a
    ensures a[..i + 1] == old(a[..i]) + [old(a[i])] && a[i + 1..n + 1] == [e] + old(a[i + 1..n])
  {
    ghost var head, tail := a[..i + 1], a[i + 1..n];
    PutAt(a, i + 1, n, e);
    ghost var all := a[..n + 1];
    assert all == head + [e] + tail;
    assert a[..i + 1] == all[..i + 1] && a[i + 1..n + 1] == all[i + 1..];
  }

  /** What `subtract_extent` leaves of `s`, the last part of a list of `n` extents in a
      table of `max`. */
  function CutRun(s: seq<Extent>, e: Extent, n: nat, max: nat): seq<Extent>
    requires |s| <= n
  {
    if s == [] then []
    else
      var p := Pieces(s[0], e, n < max);
      p + CutRun(s[1..], e, n + |p| - 1, max)
  }

  lemma {:induction false} CutQuiet(s: seq<Extent>, e: Extent, n: nat, max: nat, room: bool)
    requires |s| <= n && Quiet(s, e) && e.begin < e.end
    ensures CutRun(s, e, n, max) == Cut(s, e, room)
  {
    if s != [] {
      forall i | 0 <= i < |s[1..]| ensures !Splits(s[1..][i], e) { assert s[1..][i] == s[i + 1]; }
      CutQuiet(s[1..], e, n + |Pieces(s[0], e, n < max)| - 1, max, room);
    }
  }

  /** In order, at most one extent is split, so the room is that of the whole list. */
  lemma {:induction false} CutRunIs(s: seq<Extent>, e: Extent, n: nat, max: nat)
    requires |s| <= n && Normal(s) && e.begin < e.end
    ensures CutRun(s, e, n, max) == Cut(s, e, n < max)
  {
    if s != [] {
      NormalTail(s);
      if e.begin < s[0].end {
        QuietTail(s, e);
        CutQuiet(s[1..], e, n + |Pieces(s[0], e, n < max)| - 1, max, n < max);
      } else {
        CutRunIs(s[1..], e, n, max);
      }
    }
  }

  /** `pre` is done, `rest` is still to be cut, for `whole` in the end. */
  ghost predicate Doing(pre: seq<Extent>, rest: seq<Extent>, e: Extent, max: nat, whole: seq<Extent>) {
    pre + CutRun(rest, e, |pre| + |rest|, max) == whole
  }

  lemma DoingIs(pre: seq<Extent>, rest: seq<Extent>, e: Extent, max: nat, whole: seq<Extent>)
    ensures Doing(pre, rest, e, max, whole) <==> pre + CutRun(rest, e, |pre| + |rest|, max) == whole
    ensures CutRun([], e, |pre|, max) == []
  {
  }

  lemma RunStep(s: seq<Extent>, e: Extent, n: nat, max: nat)
    requires s != [] && |s| <= n
    ensures CutRun(s, e, n, max) == Pieces(s[0], e, n < max) + CutRun(s[1..], e, n + |Pieces(s[0], e, n < max)| - 1,
                                                                      max)
  {
  }

  lemma StepOne(pre: seq<Extent>, rest: seq<Extent>, e: Extent, max: nat, whole: seq<Extent>, x: Extent)
    requires rest != [] && Doing(pre, rest, e, max, whole) && Pieces(rest[0], e, |pre| + |rest| < max) == [x]
    ensures Doing(pre + [x], rest[1..], e, max, whole)
  {
    hide *;
    DoingIs(pre, rest, e, max, whole);
    DoingIs(pre + [x], rest[1..], e, max, whole);
    RunStep(rest, e, |pre| + |rest|, max);
    var tail := CutRun(rest[1..], e, |pre| + |rest|, max);
    assert pre + ([x] + tail) == (pre + [x]) + tail;
  }

  lemma StepGone(pre: seq<Extent>, rest: seq<Extent>, e: Extent, max: nat, whole: seq<Extent>)
    requires rest != [] && Doing(pre, rest, e, max, whole) && Pieces(rest[0], e, |pre| + |rest| < max) == []
    ensures Doing(pre, rest[1..], e, max, whole)
  {
    hide *;
    DoingIs(pre, rest, e, max, whole);
    DoingIs(pre, rest[1..], e, max, whole);
    RunStep(rest, e, |pre| + |rest|, max);
    var tail := CutRun(rest[1..], e, |pre| + |rest| - 1, max);
    assert [] + tail == tail;
  }

  lemma StepSplit(pre: seq<Extent>, rest: seq<Extent>, e: Extent, max: nat, whole: seq<Extent>)
    requires rest != [] && |pre| + |rest| < max && Doing(pre, rest, e, max, whole) && e.begin < e.end
             && Splits(rest[0], e)
    ensures Doing(pre + [Extent(rest[0].begin, e.begin)], [Extent(e.end, rest[0].end)] + rest[1..], e, max, whole)
  {
    hide *;
    SplitsIs(rest[0], e);
    PiecesParts(rest[0], e, true);
    var n, lo, up := |pre| + |rest|, Extent(rest[0].begin, e.begin), Extent(e.end, rest[0].end);
    PiecesParts(up, e, n + 1 < max);
    RunStep(rest, e, n, max);
    var more := [up] + rest[1..];
    assert more[1..] == rest[1..];
    RunStep(more, e, n + 1, max);
    var tail := CutRun(rest[1..], e, n + 1, max);
    assert pre + (([lo] + [up]) + tail) == (pre + [lo]) + ([up] + tail);
    DoingIs(pre, rest, e, max, whole);
    DoingIs(pre + [lo], more, e, max, whole);
  }

  ghost predicate Proper(s: seq<Extent>) { forall i :: 0 <= i < |s| ==> s[i].begin < s[i].end }

  lemma ProperParts(s: seq<Extent>)
    requires Proper(s) && s != []
    ensures s[0].begin < s[0].end && Proper(s[1..])
  {
  }

  lemma ProperMore(e: Extent, s: seq<Extent>)
    requires Proper(s) && e.begin < e.end
    ensures Proper([e] + s)
  {
  }

  /** One extent that meets the removed range is cut in place; `split` when its upper half
      comes next. */
  method CutOne(a: array<Extent>, i: nat, n: nat, removed: Extent, ghost whole: seq<Extent>)
    returns (i': nat, n': nat, ghost split: bool)
    requires i < n <= a.Length && a[i].begin < removed.end && removed.begin < a[i].end && removed.begin < removed.end
             && Proper(a[i..n])
    requires Doing(a[..i], a[i..n], removed, a.Length, whole)
    modifies a
    ensures i' <= n' <= a.Length && n' - i' == n - i - (if split then 0 else 1) && Proper(a[i'..n'])
    ensures split ==> i' < n' && a[i'].begin == removed.end
    ensures Doing(a[..i'], a[i'..n'], removed, a.Length, whole)
  {
    hide *;
    ghost var before, rest := a[..i], a[i..n];
    var current := a[i];
    assert rest[0] == current && rest[1..] == a[i + 1..n];
    ProperParts(rest);
    PiecesParts(current, removed, n < a.Length);
    SplitsIs(current, removed);
    i', n', split := i + 1, n, false;
    if removed.begin <= current.begin && removed.end >= current.end {
      StepGone(before, rest, removed, a.Length, whole);
      RemoveAt(a, i, n);
      i', n' := i, n - 1;
      return;
    }
    if removed.begin <= current.begin {
      a[i] := Extent(removed.end, current.end);
    } else {
      a[i] := Extent(current.begin, removed.begin);
      if removed.end < current.end && n < a.Length {
        StepSplit(before, rest, removed, a.Length, whole);
        ProperMore(Extent(removed.end, current.end), rest[1..]);
        PutAfter(a, i, n, Extent(removed.end, current.end));
        n', split := n + 1, true;
        assert a[i'..n'][0] == a[i'];
        return;
      }
    }
    StepOne(before, rest, removed, a.Length, whole, a[i]);
    assert a[..i'] == before + [a[i]];
  }

  /** `subtract_extent`, on any list. */
  method SubtractExtent(a: array<Extent>, count: nat, removed: Extent) returns (n: nat)
    requires count <= a.Length && removed.begin < removed.end && Proper(a[..count])
    modifies a
    ensures n <= a.Length && a[..n] == CutRun(old(a[..count]), removed, count, a.Length)
  {
    hide *;
    ghost var whole := CutRun(a[..count], removed, count, a.Length);
    n := count;
    var i: nat := 0;
    ghost var split := false;
    assert a[0..n] == a[..n] && a[..0] + whole == whole;
    DoingIs(a[..0], a[0..n], removed, a.Length, whole);
    while i < n
      invariant i <= n <= a.Length && Proper(a[i..n])
      invariant split ==> i < n && a[i].begin == removed.end
      invariant Doing(a[..i], a[i..n], removed, a.Length, whole)
      decreases n - i - if split then 1 else 0, split
    {
      ghost var before, rest := a[..i], a[i..n];
      var current := a[i];
      assert rest[0] == current && rest[1..] == a[i + 1..n];
      ProperParts(rest);
      PiecesParts(current, removed, n < a.Length);
      if removed.end <= current.begin || removed.begin >= current.end {
        StepOne(before, rest, removed, a.Length, whole, current);
        i, split := i + 1, false;
        assert a[..i] == before + [current];
        continue;
      }
      i, n, split := CutOne(a, i, n, removed, whole);
    }
    DoingIs(a[..i], a[i..n], removed, a.Length, whole);
  }

  /** Of a list in order, what is left is in order and is the difference, exactly so unless
      the table is full and an extent is split. */
  lemma SubtractExact(s: seq<Extent>, e: Extent, max: nat)
    requires Normal(s) && e.begin < e.end
    ensures var r := CutRun(s, e, |s|, max);
            && Normal(r)
            && (forall x: nat :: In(r, x) ==> In(s, x) && !Has(e, x))
            && ((forall x: nat :: In(r, x) <==> In(s, x) && !Has(e, x)) <==> |s| < max || Quiet(s, e))
  {
    CutRunIs(s, e, |s|, max);
    hide Cut, CutRun, Normal, In;
    var room := |s| < max;
    CutNormal(s, e, room);
    forall x: nat ensures In(Cut(s, e, room), x) <==> In(s, x) && !Has(e, x) && (room || !Dropped(s, e, x)) {
      CutMeans(s, e, room, x);
    }
    if !room && !Quiet(s, e) {
      var i :| 0 <= i < |s| && Splits(s[i], e);
      assert Dropped(s, e, e.end);
      DroppedIn(s, e, e.end);
    }
  }
}
