/** Who owns which cluster: the allocation bitmap (section 7.1 of the exFAT file
    system specification) against the cluster lists of all live streams. */
module ExfatLayout {
  import opened Common
  import opened ExfatDisk

  // ---------------------------------------------------------------------- bits

  function Weight(i: nat): nat
    requires i < 8
  {
    [1, 2, 4, 8, 16, 32, 64, 128][i]
  }

  /** `(b >> i) & 1`. */
  predicate Bit(b: byte, i: nat)
    requires i < 8
  {
    b / Weight(i) % 2 == 1
  }

  /** `b | (1 << i)`. */
  function SetBit(b: byte, i: nat): byte
    requires i < 8
  {
    if Bit(b, i) then b else assert b + Weight(i) < 256 by { RoomForBit(b, i); } b + Weight(i)
  }

  /** `b & ~(1 << i)`. */
  function ClearBit(b: byte, i: nat): byte
    requires i < 8
  {
    if Bit(b, i) then b - Weight(i) else b
  }

  lemma RoomForBit(b: byte, i: nat)
    requires i < 8 && !Bit(b, i)
    ensures b + Weight(i) < 256
  {
    if i == 0 {} else if i == 1 {} else if i == 2 {} else if i == 3 {}
    else if i == 4 {} else if i == 5 {} else if i == 6 {} else {}
  }

  lemma Regroup(q: nat, y: nat, r: nat, x: nat, t: nat)
    requires r < y && t < x
    ensures x * y > 0 && (q * y + r) * x + t == q * (x * y) + (r * x + t)
    ensures r * x + t < x * y
  {
    MulMono(r + 1, y, x);
    assert (q * y + r) * x == q * y * x + r * x;
    assert q * y * x == q * (y * x);
  }

  lemma DivDiv(b: nat, x: nat, y: nat)
    requires x > 0 && y > 0
    ensures x * y > 0 && b / (x * y) == b / x / y
  {
    var q, r, t := b / x / y, b / x % y, b % x;
    assert b == (q * y + r) * x + t;
    Regroup(q, y, r, x, t);
    DivModUnique(b, x * y, q, r * x + t);
  }

  /** Adding weight `w` to a number without that bit keeps every higher bit. */
  lemma HigherBits(b: nat, w: nat, m: nat)
    requires w > 0 && m > 0 && b / w % 2 == 0
    ensures w * 2 * m > 0 && (b + w) / (w * 2 * m) == b / (w * 2 * m)
  {
    var q := b / w / 2;
    assert b / w == q * 2 && b == b / w * w + b % w;
    assert q * 2 * w == q * (w * 2);
    DivModUnique(b, w * 2, q, b % w);
    DivModUnique(b + w, w * 2, q, b % w + w);
    DivDiv(b, w * 2, m);
    DivDiv(b + w, w * 2, m);
  }

  /** Adding an even multiple of weight `v` keeps that bit. */
  lemma LowerBits(b: nat, v: nat, m: nat)
    requires v > 0
    ensures (b + v * 2 * m) / v % 2 == b / v % 2
  {
    assert b == b / v * v + b % v;
    assert (b / v + 2 * m) * v == b / v * v + v * 2 * m;
    DivModUnique(b + v * 2 * m, v, b / v + 2 * m, b % v);
  }

  lemma WeightRatio(i: nat, j: nat)
    requires i < j < 8
    ensures Weight(i) > 0 && Weight(j) == Weight(i) * 2 * Weight(j - i - 1)
  {
  }

  /** Adding a missing bit changes that bit alone. */
  lemma AddBit(b: byte, i: nat, j: nat)
    requires i < 8 && j < 8 && !Bit(b, i)
    ensures b + Weight(i) < 256
    ensures Bit(b + Weight(i), j) <==> i == j || Bit(b, j)
  {
    RoomForBit(b, i);
    hide Weight;
    if i < j {
      WeightRatio(i, j);
      HigherBits(b, Weight(i), Weight(j - i - 1));
    } else if j < i {
      WeightRatio(j, i);
      LowerBits(b, Weight(j), Weight(i - j - 1));
    } else {
      SameBit(b, i);
    }
  }

  lemma SameBit(b: byte, i: nat)
    requires i < 8 && !Bit(b, i) && b + Weight(i) < 256
    ensures Bit(b + Weight(i), i)
  {
    var w := Weight(i);
    assert b == b / w * w + b % w && (b / w + 1) * w == b / w * w + w;
    DivModUnique(b + w, w, b / w + 1, b % w);
  }

  lemma DropBit(b: byte, i: nat)
    requires i < 8 && Bit(b, i)
    ensures b >= Weight(i) && !Bit(b - Weight(i), i)
  {
    var w := Weight(i);
    assert b == b / w * w + b % w && b / w >= 1;
    MulMono(1, b / w, w);
    assert (b / w - 1) * w == b / w * w - w;
    DivModUnique(b - w, w, b / w - 1, b % w);
  }

  lemma BitsAfter(b: byte, i: nat, j: nat)
    requires i < 8 && j < 8
    ensures Bit(SetBit(b, i), j) <==> i == j || Bit(b, j)
    ensures Bit(ClearBit(b, i), j) <==> i != j && Bit(b, j)
  {
    hide Weight;
    if Bit(b, i) {
      DropBit(b, i);
      AddBit(b - Weight(i), i, j);
    } else {
      AddBit(b, i, j);
    }
  }

  lemma FullByte(i: nat)
    requires i < 8
    ensures Bit(0xFF, i)
  {
  }

  // ------------------------------------------------------- the bitmap as a set

  /** Cluster `c` is marked in the bitmap bytes. */
  predicate Used(bits: seq<byte>, c: nat)
    requires c >= FIRST_DATA_CLUSTER && (c - 2) / 8 < |bits|
  {
    Bit(bits[(c - 2) / 8], (c - 2) % 8)
  }

  ghost predicate Covers(count: nat, bits: seq<byte>) { (count + 7) / 8 <= |bits| }

  ghost function FreeClusters(count: nat, bits: seq<byte>): set<nat>
    requires Covers(count, bits)
  {
    set c | FIRST_DATA_CLUSTER <= c <= count + 1 && !Used(bits, c)
  }

  function Marked(bits: seq<byte>, c: nat, used: bool): (r: seq<byte>)
    requires c >= FIRST_DATA_CLUSTER && (c - 2) / 8 < |bits|
    ensures |r| == |bits|
  {
    var i, k := (c - 2) / 8, (c - 2) % 8;
    bits[i := if used then SetBit(bits[i], k) else ClearBit(bits[i], k)]
  }

  predicate InBits(bits: seq<byte>, c: nat) { c >= FIRST_DATA_CLUSTER && (c - 2) / 8 < |bits| }

  /** Marking a cluster changes that cluster's mark alone. */
  lemma MarkedUsed(bits: seq<byte>, c: nat, used: bool, d: nat)
    requires InBits(bits, c) && InBits(bits, d)
    ensures Used(Marked(bits, c, used), d) <==> if c == d then used else Used(bits, d)
  {
    BitsAfter(bits[(c - 2) / 8], (c - 2) % 8, (d - 2) % 8);
    assert c - 2 == (c - 2) / 8 * 8 + (c - 2) % 8 && d - 2 == (d - 2) / 8 * 8 + (d - 2) % 8;
  }

  lemma MarkedAll(bits: seq<byte>, c: nat, used: bool)
    requires InBits(bits, c)
    ensures forall d :: InBits(bits, d) ==> (Used(Marked(bits, c, used), d) <==> if c == d then used else Used(bits, d))
  {
    forall d | InBits(bits, d)
      ensures Used(Marked(bits, c, used), d) <==> if c == d then used else Used(bits, d)
    {
      MarkedUsed(bits, c, used, d);
    }
  }

  /** The marks determine the bitmap bytes, padding bits included. */
  lemma MarksDetermine(a: seq<byte>, b: seq<byte>)
    requires |a| == |b|
    requires forall c :: InBits(a, c) ==> (Used(a, c) <==> Used(b, c))
    ensures a == b
  {
    forall i | 0 <= i < |a| ensures a[i] == b[i] {
      forall k | 0 <= k < 8 ensures Bit(a[i], k) <==> Bit(b[i], k) {
        var c := i * 8 + k + 2;
        assert (c - 2) / 8 == i && (c - 2) % 8 == k;
        assert Used(a, c) <==> Used(b, c);
      }
      SameBits(a[i], b[i]);
    }
  }

  lemma Halve(a: nat, b: nat, w: nat)
    requires w > 0 && a / (w * 2) == b / (w * 2)
    requires a / w % 2 == 1 <==> b / w % 2 == 1
    ensures a / w == b / w
  {
    DivDiv(a, w, 2);
    DivDiv(b, w, 2);
  }

  lemma SameBits(a: byte, b: byte)
    requires forall k :: 0 <= k < 8 ==> (Bit(a, k) <==> Bit(b, k))
    ensures a == b
  {
    assert Bit(a, 7) <==> Bit(b, 7);
    Halve(a, b, 128);
    for k := 7 downto 0
      invariant a / Weight(k) == b / Weight(k)
    {
      assert Bit(a, k) <==> Bit(b, k);
      WeightRatio(k, k + 1);
      Halve(a, b, Weight(k));
    }
  }

  // -------------------------------------------------------------------- layout

  /** What a cluster list belongs to.  A node is named by the first cluster of the
      directory holding its entry set and the slot of that set. */
  datatype Id = RootId | BitmapId | UpcaseId | PendingId | NodeId(dir: nat, slot: nat)

  datatype Head = Head(first: nat, contiguous: bool)

  datatype Place = Place(id: Id, index: nat)

  /** The cluster list of every live stream, and the place of every owned cluster. */
  datatype Layout = Layout(heads: map<Id, Head>, chain: map<Id, seq<nat>>, owner: map<nat, Place>)

  ghost predicate ChainsOk(count: nat, fat: seq<nat>, lay: Layout)
    requires |fat| == count + 2
  {
    && lay.heads.Keys == lay.chain.Keys
    && forall id :: id in lay.chain ==>
         ChainOk(count, fat, lay.heads[id].first, lay.heads[id].contiguous, lay.chain[id])
  }

  /** Each owned cluster has exactly one place. */
  ghost predicate OwnersOk(lay: Layout) {
    && (forall id, k {:trigger lay.chain[id][k]} :: id in lay.chain && 0 <= k < |lay.chain[id]| ==>
          lay.chain[id][k] in lay.owner && lay.owner[lay.chain[id][k]] == Place(id, k))
    && (forall c :: c in lay.owner ==>
          && lay.owner[c].id in lay.chain
          && lay.owner[c].index < |lay.chain[lay.owner[c].id]|
          && lay.chain[lay.owner[c].id][lay.owner[c].index] == c)
  }

  /** The bitmap marks exactly the owned clusters. */
  ghost predicate MarksOk(count: nat, bits: seq<byte>, lay: Layout)
    requires Covers(count, bits)
  {
    forall c :: InHeap(count, c) ==> (Used(bits, c) <==> c in lay.owner)
  }

  ghost predicate LayoutOk(count: nat, fat: seq<nat>, bits: seq<byte>, lay: Layout)
    requires |fat| == count + 2 && Covers(count, bits)
  {
    ChainsOk(count, fat, lay) && OwnersOk(lay) && MarksOk(count, bits, lay)
  }

  function IndexOf(cs: seq<nat>, c: nat): (k: nat)
    requires c in cs
    ensures k < |cs| && cs[k] == c
  {
    if cs[0] == c then 0 else 1 + IndexOf(cs[1..], c)
  }

  /** `lay` with the cluster list of `id` replaced. */
  ghost function Reshaped(lay: Layout, id: Id, head: Head, cs: seq<nat>): Layout {
    Layout(
      lay.heads[id := head],
      lay.chain[id := cs],
      map c | c in lay.owner.Keys + (set x | x in cs) && (c in cs || lay.owner[c].id != id) ::
        if c in cs then Place(id, IndexOf(cs, c)) else lay.owner[c])
  }

  /** Two live cluster lists share nothing. */
  lemma ChainsApart(lay: Layout, i: Id, j: Id, c: nat)
    requires OwnersOk(lay) && i in lay.chain && j in lay.chain && i != j
    requires c in lay.chain[i]
    ensures c !in lay.chain[j]
  {
    var k :| 0 <= k < |lay.chain[i]| && lay.chain[i][k] == c;
    assert lay.owner[c] == Place(i, k);
  }

  lemma ChainDistinct(lay: Layout, id: Id)
    requires OwnersOk(lay) && id in lay.chain
    ensures Distinct(lay.chain[id])
  {
    var cs := lay.chain[id];
    forall i, j | 0 <= i < j < |cs| ensures cs[i] != cs[j] {
      assert lay.owner[lay.chain[id][i]] == Place(id, i) && lay.owner[lay.chain[id][j]] == Place(id, j);
    }
  }

  /** What growing, cutting or relinking one stream may do to the disk. */
  ghost predicate Reshape(count: nat, fat: seq<nat>, fat': seq<nat>, bits: seq<byte>, bits': seq<byte>,
                          before: seq<nat>, head: Head, cs: seq<nat>)
    requires |fat| == |fat'| == count + 2 && Covers(count, bits) && |bits| == |bits'|
  {
    && ChainOk(count, fat', head.first, head.contiguous, cs) && Distinct(cs)
    && (forall k :: 0 <= k < |cs| ==> cs[k] in before || !Used(bits, cs[k]))
    && (forall c :: InBits(bits, c) ==> (Used(bits', c) <==> c in cs || (Used(bits, c) && c !in before)))
    && (forall c: nat :: InHeap(count, c) && Used(bits, c) && c !in cs && c !in before ==> fat'[c] == fat[c])
  }

  /** Every other stream survives, and the bitmap stays exact. */
  lemma ReshapeKeeps(count: nat, fat: seq<nat>, fat': seq<nat>, bits: seq<byte>, bits': seq<byte>,
                     lay: Layout, id: Id, head: Head, cs: seq<nat>)
    requires |fat| == |fat'| == count + 2 && Covers(count, bits) && |bits| == |bits'|
    requires LayoutOk(count, fat, bits, lay) && id in lay.chain
    requires Reshape(count, fat, fat', bits, bits', lay.chain[id], head, cs)
    ensures LayoutOk(count, fat', bits', Reshaped(lay, id, head, cs))
  {
    var lay' := Reshaped(lay, id, head, cs);
    assert ChainsOk(count, fat', lay') by { ReshapeChains(count, fat, fat', bits, bits', lay, id, head, cs); }
    assert OwnersOk(lay') by { ReshapeOwners(count, fat, fat', bits, bits', lay, id, head, cs); }
    assert MarksOk(count, bits', lay') by { ReshapeMarks(count, fat, fat', bits, bits', lay, id, head, cs); }
  }

  lemma OutsideReshape(count: nat, fat: seq<nat>, fat': seq<nat>, bits: seq<byte>, bits': seq<byte>,
                       lay: Layout, id: Id, head: Head, cs: seq<nat>, c: nat)
    requires |fat| == |fat'| == count + 2 && Covers(count, bits) && |bits| == |bits'|
    requires LayoutOk(count, fat, bits, lay) && id in lay.chain
    requires Reshape(count, fat, fat', bits, bits', lay.chain[id], head, cs)
    requires c in lay.owner && lay.owner[c].id != id
    ensures InHeap(count, c) && c !in cs && c !in lay.chain[id] && fat'[c] == fat[c]
  {
    var p := lay.owner[c];
    assert lay.chain[p.id][p.index] == c;
    assert ChainOk(count, fat, lay.heads[p.id].first, lay.heads[p.id].contiguous, lay.chain[p.id]);
    ChainsApart(lay, p.id, id, c);
    assert Used(bits, c);
  }

  lemma ReshapeChains(count: nat, fat: seq<nat>, fat': seq<nat>, bits: seq<byte>, bits': seq<byte>,
                      lay: Layout, id: Id, head: Head, cs: seq<nat>)
    requires |fat| == |fat'| == count + 2 && Covers(count, bits) && |bits| == |bits'|
    requires LayoutOk(count, fat, bits, lay) && id in lay.chain
    requires Reshape(count, fat, fat', bits, bits', lay.chain[id], head, cs)
    ensures ChainsOk(count, fat', Reshaped(lay, id, head, cs))
  {
    forall i | i in lay.chain && i != id
      ensures ChainOk(count, fat', lay.heads[i].first, lay.heads[i].contiguous, lay.chain[i])
    {
      forall k | 0 <= k < |lay.chain[i]| ensures fat'[lay.chain[i][k]] == fat[lay.chain[i][k]] {
        OutsideReshape(count, fat, fat', bits, bits', lay, id, head, cs, lay.chain[i][k]);
      }
      ChainFrame(count, fat, fat', lay.heads[i].first, lay.heads[i].contiguous, lay.chain[i]);
    }
  }

  lemma ReshapeOwners(count: nat, fat: seq<nat>, fat': seq<nat>, bits: seq<byte>, bits': seq<byte>,
                      lay: Layout, id: Id, head: Head, cs: seq<nat>)
    requires |fat| == |fat'| == count + 2 && Covers(count, bits) && |bits| == |bits'|
    requires LayoutOk(count, fat, bits, lay) && id in lay.chain
    requires Reshape(count, fat, fat', bits, bits', lay.chain[id], head, cs)
    ensures OwnersOk(Reshaped(lay, id, head, cs))
  {
    hide ChainOk, MarksOk, ChainsOk;
    var lay' := Reshaped(lay, id, head, cs);
    forall i, k | i in lay'.chain && 0 <= k < |lay'.chain[i]|
      ensures lay'.chain[i][k] in lay'.owner && lay'.owner[lay'.chain[i][k]] == Place(i, k)
    {
      var c := lay'.chain[i][k];
      if i == id {
        assert c in cs && IndexOf(cs, c) == k;
      } else {
        assert lay.chain[i][k] == c;
        OutsideReshape(count, fat, fat', bits, bits', lay, id, head, cs, c);
      }
    }
    forall c | c in lay'.owner
      ensures lay'.owner[c].id in lay'.chain
      ensures lay'.owner[c].index < |lay'.chain[lay'.owner[c].id]|
      ensures lay'.chain[lay'.owner[c].id][lay'.owner[c].index] == c
    {
    }
  }

  lemma ReshapeMarks(count: nat, fat: seq<nat>, fat': seq<nat>, bits: seq<byte>, bits': seq<byte>,
                     lay: Layout, id: Id, head: Head, cs: seq<nat>)
    requires |fat| == |fat'| == count + 2 && Covers(count, bits) && |bits| == |bits'|
    requires LayoutOk(count, fat, bits, lay) && id in lay.chain
    requires Reshape(count, fat, fat', bits, bits', lay.chain[id], head, cs)
    ensures MarksOk(count, bits', Reshaped(lay, id, head, cs))
  {
    hide ChainOk, ChainsOk;
    var lay' := Reshaped(lay, id, head, cs);
    forall c | InHeap(count, c) ensures Used(bits', c) <==> c in lay'.owner {
      assert InBits(bits, c);
      if c in lay.owner && lay.owner[c].id == id {
        assert c == lay.chain[id][lay.owner[c].index];
      } else if c in lay.owner {
        OutsideReshape(count, fat, fat', bits, bits', lay, id, head, cs, c);
      }
    }
  }

  // ------------------------------------------------------- naming cluster lists

  /** A new, empty cluster list. */
  ghost function Added(lay: Layout, id: Id): Layout {
    lay.(heads := lay.heads[id := Head(0, false)], chain := lay.chain[id := []])
  }

  lemma AddedKeeps(count: nat, fat: seq<nat>, bits: seq<byte>, lay: Layout, id: Id)
    requires |fat| == count + 2 && Covers(count, bits) && LayoutOk(count, fat, bits, lay) && id !in lay.chain
    ensures LayoutOk(count, fat, bits, Added(lay, id))
  {
    hide Used, ChainOk;
    assert ChainOk(count, fat, 0, false, []) by { NoChain(count, fat); }
    forall i | i in Added(lay, id).chain && i != id
      ensures ChainOk(count, fat, lay.heads[i].first, lay.heads[i].contiguous, lay.chain[i])
    {
    }
  }

  lemma NoChain(count: nat, fat: seq<nat>)
    requires |fat| == count + 2
    ensures ChainOk(count, fat, 0, false, [])
  {
  }

  /** An empty cluster list forgotten. */
  ghost function Dropped(lay: Layout, id: Id): Layout {
    lay.(heads := lay.heads - {id}, chain := lay.chain - {id})
  }

  lemma DroppedKeeps(count: nat, fat: seq<nat>, bits: seq<byte>, lay: Layout, id: Id)
    requires |fat| == count + 2 && Covers(count, bits) && LayoutOk(count, fat, bits, lay)
    requires id in lay.chain && lay.chain[id] == []
    ensures LayoutOk(count, fat, bits, Dropped(lay, id))
  {
    hide Used, ChainOk;
  }

  /** A cluster list under another name. */
  ghost function Renamed(lay: Layout, from: Id, to: Id): Layout
    requires from in lay.chain && from in lay.heads
  {
    Layout(
      (lay.heads - {from})[to := lay.heads[from]],
      (lay.chain - {from})[to := lay.chain[from]],
      map c | c in lay.owner :: if lay.owner[c].id == from then Place(to, lay.owner[c].index) else lay.owner[c])
  }

  lemma RenamedKeeps(count: nat, fat: seq<nat>, bits: seq<byte>, lay: Layout, from: Id, to: Id)
    requires |fat| == count + 2 && Covers(count, bits) && LayoutOk(count, fat, bits, lay)
    requires from in lay.chain && to !in lay.chain
    ensures LayoutOk(count, fat, bits, Renamed(lay, from, to))
  {
    hide Used, ChainOk;
    var lay' := Renamed(lay, from, to);
    assert lay'.heads.Keys == lay'.chain.Keys;
    forall i | i in lay'.chain
      ensures ChainOk(count, fat, lay'.heads[i].first, lay'.heads[i].contiguous, lay'.chain[i])
    {
    }
    RenamedOwners(lay, from, to);
  }

  lemma RenamedOwners(lay: Layout, from: Id, to: Id)
    requires OwnersOk(lay) && lay.heads.Keys == lay.chain.Keys && from in lay.chain && to !in lay.chain
    ensures OwnersOk(Renamed(lay, from, to))
  {
    var lay' := Renamed(lay, from, to);
    forall i, k | i in lay'.chain && 0 <= k < |lay'.chain[i]|
      ensures lay'.chain[i][k] in lay'.owner && lay'.owner[lay'.chain[i][k]] == Place(i, k)
    {
      if i == to {
        assert lay.chain[from][k] == lay'.chain[i][k];
      } else {
        assert lay.chain[i][k] == lay'.chain[i][k];
      }
    }
    forall c | c in lay'.owner
      ensures lay'.owner[c].id in lay'.chain
      ensures lay'.owner[c].index < |lay'.chain[lay'.owner[c].id]|
      ensures lay'.chain[lay'.owner[c].id][lay'.owner[c].index] == c
    {
      assert lay.chain[lay.owner[c].id][lay.owner[c].index] == c;
    }
  }

  lemma ChunkUsed(bits: seq<byte>, index: nat, chunk: seq<byte>, c: nat)
    requires index + |chunk| <= |bits| && chunk == bits[index..index + |chunk|]
    requires c >= FIRST_DATA_CLUSTER && index <= (c - 2) / 8 < index + |chunk|
    ensures Used(bits, c) <==> Bit(chunk[(c - 2) / 8 - index], (c - 2) % 8)
  {
  }

  lemma NoneFree(count: nat, bits: seq<byte>)
    requires Covers(count, bits) && forall c :: InHeap(count, c) ==> Used(bits, c)
    ensures |FreeClusters(count, bits)| == 0
  {
    assert FreeClusters(count, bits) == {};
  }

  lemma LayoutParts(count: nat, fat: seq<nat>, bits: seq<byte>, lay: Layout)
    requires |fat| == count + 2 && Covers(count, bits) && LayoutOk(count, fat, bits, lay)
    ensures OwnersOk(lay) && lay.heads.Keys == lay.chain.Keys
  {
  }

  lemma ReshapedParts(lay: Layout, id: Id, head: Head, cs: seq<nat>)
    ensures Reshaped(lay, id, head, cs).chain == lay.chain[id := cs]
    ensures Reshaped(lay, id, head, cs).heads == lay.heads[id := head]
    ensures OwnersOk(lay) && id in lay.chain && id in lay.heads && lay.chain[id] == cs && lay.heads[id] == head ==>
              Reshaped(lay, id, head, cs) == lay
  {
    if OwnersOk(lay) && id in lay.chain && id in lay.heads && lay.chain[id] == cs && lay.heads[id] == head {
      ReshapedSame(lay, id);
    }
    hide OwnersOk;
  }

  lemma ReshapedSame(lay: Layout, id: Id)
    requires OwnersOk(lay) && id in lay.chain && id in lay.heads
    ensures Reshaped(lay, id, lay.heads[id], lay.chain[id]) == lay
  {
    var cs, lay' := lay.chain[id], Reshaped(lay, id, lay.heads[id], lay.chain[id]);
    forall c ensures c in lay.owner <==> c in lay'.owner
      ensures c in lay.owner ==> lay'.owner[c] == lay.owner[c]
    {
      if c in cs { assert lay.chain[id][IndexOf(cs, c)] == c; }
      if c in lay.owner && lay.owner[c].id == id { assert lay.chain[id][lay.owner[c].index] == c; }
    }
    hide OwnersOk, Reshaped;
    ReshapedChain(lay, id, lay.heads[id], cs);
    assert lay'.owner == lay.owner && lay.chain[id := cs] == lay.chain && lay.heads[id := lay.heads[id]] == lay.heads;
  }

  lemma ReshapedChain(lay: Layout, id: Id, head: Head, cs: seq<nat>)
    ensures Reshaped(lay, id, head, cs).chain == lay.chain[id := cs]
            && Reshaped(lay, id, head, cs).heads == lay.heads[id := head]
  {
  }

  lemma FreeAt(count: nat, bits: seq<byte>, c: int)
    requires Covers(count, bits)
    ensures c in FreeClusters(count, bits) <==> c >= 0 && InHeap(count, c) && InBits(bits, c) && !Used(bits, c)
  {
    hide Used;
  }

  lemma ReshapeParts(count: nat, fat: seq<nat>, fat': seq<nat>, bits: seq<byte>, bits': seq<byte>, before: seq<nat>,
                     head: Head, cs: seq<nat>)
    requires |fat| == |fat'| == count + 2 && Covers(count, bits) && |bits| == |bits'|
             && Reshape(count, fat, fat', bits, bits', before, head, cs)
    ensures Distinct(cs) && Covers(count, bits')
  {
    hide Used, ChainOk, Distinct;
  }

  /** One cluster, before and after. */
  lemma ReshapeAt(count: nat, fat: seq<nat>, fat': seq<nat>, bits: seq<byte>, bits': seq<byte>, before: seq<nat>,
                  head: Head, cs: seq<nat>, c: nat)
    requires |fat| == |fat'| == count + 2 && Covers(count, bits) && |bits| == |bits'|
             && Reshape(count, fat, fat', bits, bits', before, head, cs)
    ensures c in cs ==> InHeap(count, c) && InBits(bits, c) && (c in before || !Used(bits, c))
    ensures InBits(bits, c) <==> InBits(bits', c)
    ensures InBits(bits, c) ==> (Used(bits', c) <==> c in cs || (Used(bits, c) && c !in before))
  {
    ChainFacts(count, fat', head.first, head.contiguous, cs);
    hide Used, ChainOk, Distinct;
  }

  lemma BitmapChain(count: nat, fat: seq<nat>, bits: seq<byte>, lay: Layout)
    requires |fat| == count + 2 && Covers(count, bits) && LayoutOk(count, fat, bits, lay)
    requires BitmapId in lay.chain && BitmapId in lay.heads
    ensures ChainOk(count, fat, lay.heads[BitmapId].first, lay.heads[BitmapId].contiguous, lay.chain[BitmapId])
    ensures Distinct(lay.chain[BitmapId])
  {
    ChainDistinct(lay, BitmapId);
  }

  lemma ChainFrom(count: nat, fat: seq<nat>, lay: Layout, id: Id)
    requires |fat| == count + 2 && ChainsOk(count, fat, lay) && id in lay.chain
    ensures id in lay.heads && ChainOk(count, fat, lay.heads[id].first, lay.heads[id].contiguous, lay.chain[id])
  {
  }

  lemma AddedParts(count: nat, lay: Layout, id: Id)
    ensures var lay1 := Added(lay, id);
            && lay1.owner == lay.owner && id in lay1.chain && id in lay1.heads && lay1.chain[id] == []
            && lay1.heads[id] == Head(0, false)
  {
  }

  lemma DroppedLists(lay0: Layout, lay1: Layout)
    requires PendingId in lay1.chain && PendingId in lay1.heads
    requires lay1.chain == lay0.chain[PendingId := lay1.chain[PendingId]]
             && lay1.heads == lay0.heads[PendingId := lay1.heads[PendingId]]
    ensures Dropped(lay1, PendingId).chain == lay0.chain - {PendingId}
            && Dropped(lay1, PendingId).heads == lay0.heads - {PendingId}
  {
  }

  lemma Owners(count: nat, fat: seq<nat>, bits: seq<byte>, lay: Layout, c: nat)
    requires |fat| == count + 2 && Covers(count, bits) && LayoutOk(count, fat, bits, lay) && InHeap(count, c)
    ensures Used(bits, c) <==> exists i :: i in lay.chain && c in lay.chain[i]
    ensures forall i, j :: i in lay.chain && j in lay.chain && c in lay.chain[i] && c in lay.chain[j] ==> i == j
  {
    if c in lay.owner {
      assert lay.chain[lay.owner[c].id][lay.owner[c].index] == c;
    }
    forall i | i in lay.chain && c in lay.chain[i] ensures c in lay.owner && lay.owner[c].id == i {
      var k :| 0 <= k < |lay.chain[i]| && lay.chain[i][k] == c;
    }
  }
}
