/** Runs on a freshly formatted volume that reach the edges of `create`. */
module ExfatRuns {
  import opened Common
  import opened ExfatDirectory
  import opened ExfatDisk
  import opened ExfatEntries
  import opened ExfatFiles
  import opened ExfatIds
  import opened ExfatLayout
  import opened ExfatTree
  import opened ExfatVolume
  import opened Utf

  // --------------------------------------------------------------------- names

  function Repeated(u: unit, n: nat): (s: seq<unit>)
    ensures |s| == n && forall i :: 0 <= i < n ==> s[i] == u
  {
    seq(n, _ => u)
  }

  /** A unit that stands for itself is encoded `n` times over. */
  lemma {:induction false} RepeatedLength(u: unit, n: nat)
    requires !HighSurrogate(u)
    ensures |Encode(Repeated(u, n))| == n * |EncodePoint(u)|
  {
    if n > 0 {
      assert Repeated(u, n)[1..] == Repeated(u, n - 1);
      RepeatedLength(u, n - 1);
    }
  }

  /** `n` times the same harmless unit is a good name. */
  lemma RepeatedGood(u: unit, n: nat)
    requires !HighSurrogate(u) && u != 0 && u != 0x2E && !ForbiddenUnit(u) && 1 <= n <= 255
    ensures var name := Encode(Repeated(u, n));
            && NullFree(name) && Wanted(name) == Some(Repeated(u, n)) && GoodName(name)
            && SlotsFor(name) == 2 + NameEntries(n)
  {
    DecodeEncode(Repeated(u, n));
    EncodeNullFree(Repeated(u, n));
    hide Encode, Decode;
  }

  /** Names of 86 to 255 units that take more than 255 bytes. */
  lemma LongName(n: nat)
    requires 86 <= n <= 255
    ensures var name := Encode(Repeated(0x800, n));
            NullFree(name) && GoodName(name) && |name| == 3 * n > 255
  {
    RepeatedGood(0x800, n);
    RepeatedLength(0x800, n);
    assert |EncodePoint(0x800)| == 3;
  }

  // ---------------------------------------------------------------------- runs

  /** A zeroed directory has room for what fits its length. */
  lemma ZeroedRoom(cb: nat, n: nat)
    requires cb % ENTRY_BYTES == 0 && n * ENTRY_BYTES <= cb
    ensures !Full(Zeros(cb), n)
  {
    ZeroRun([], cb, n);
    assert [] + Zeros(cb) == Zeros(cb);
    assert FreeRun(Zeros(cb), 0, n);
  }

  /** A legal name can be added to an empty root that has the slots. */
  lemma EmptyRoot(v: Volume, name: seq<byte>, kind: NodeType)
    requires v.cb > 0 && v.cb % ENTRY_BYTES == 0 && v.writable && GoodName(name) && kind in {RegularFile, Directory}
    requires v.dirs == map[v.root.first := map[]] && v.Bytes(RootId) == Zeros(v.cb)
    requires SlotsFor(name) * ENTRY_BYTES <= v.cb && v.Free() > 0
    ensures v.Node(ROOT_ID) && v.DirAt(ROOT_ID) == v.root && DirId(ROOT_ID) == RootId
    ensures v.CreateCheck(ROOT_ID, name, kind) == NoError
    ensures v.CreateFits(ROOT_ID, SlotsFor(name), kind == Directory) && !Full(v.Bytes(DirId(ROOT_ID)), SlotsFor(name))
  {
    ZeroedRoom(v.cb, SlotsFor(name));
    hide v.Bytes, v.Free, Full, Wanted, LegalName, SlotsFor, Up;
  }

  /** The one set of a directory that was empty. */
  lemma OnlySet(t: Tree, t': Tree, d: nat, slot: nat, e: Entry)
    requires t.dirs == map[d := map[]] && Adds(t, t', d, slot, e)
    ensures t'.Has(d, slot) && t'.At(d, slot).entry == e
    ensures d in t'.dirs && forall q :: q in t'.dirs[d] ==> q == slot
  {
    forall q | d in t'.dirs && q in t'.dirs[d] ensures q == slot {
      assert t'.Has(d, q);
    }
  }

  /** 86 letters that take three bytes each: `create` reports an error, and the set is
      there. */
  method LongNameAdded(up: Upcase) returns (v: Volume, error: Error, ghost slot: nat)
    ensures v.Valid() && error == InvalidArgument
    ensures v.T().Has(3, slot) && v.T().At(3, slot).entry.name == Repeated(0x800, 86)
  {
    Sizes();
    Harmless();
    hide *;
    v := new Volume.Format(100, 512, up);
    var name := Encode(Repeated(0x800, 86));
    LongName(86);
    RepeatedGood(0x800, 86);
    EmptyRoot(v, name, RegularFile);
    ghost var t := v.T();
    v.TreeParts();
    var node;
    ghost var s;
    error, node, slot, s := v.Create(ROOT_ID, name, RegularFile);
    OnlySet(t, v.T(), 3, slot, Entry(s, 0x20, Repeated(0x800, 86)));
  }

  lemma Sizes()
    ensures ENTRY_BYTES == 32 && NameEntries(86) == 6 && NameEntries(196) == 14 && NameEntries(211) == 15
            && NameEntries(1) == 1
    ensures 100 < END_OF_CHAIN - 1
  {
  }

  /** A set of a name of 196 units fills a directory of 512 bytes. */
  lemma SetFills(count: nat, cb: nat, up: Upcase, content: seq<byte>, ents: map<nat, Rec>, slot: nat, i: nat)
    requires cb > 0 && DirOk(count, cb, up, content, ents) && slot in ents && |ents[slot].entry.name| == 196
             && |content| == 512 && i < 16
    ensures Slots(content) == 16 && TypeAt(content, i) >= 0x80
  {
    hide *;
    SetOf(count, cb, up, content, ents, slot);
    Sizes();
    SlotsOf(content);
    NameFits(count, cb, up, SetBytes(content, slot, ents[slot].size), ents[slot].entry);
    SetInUse(count, cb, up, content, slot, ents[slot], i);
  }

  lemma SlotsOf(content: seq<byte>)
    ensures Slots(content) == |content| / 32
  {
  }

  lemma NameFits(count: nat, cb: nat, up: Upcase, bytes: seq<byte>, e: Entry)
    requires cb > 0 && |bytes| >= 96 && |bytes| % ENTRY_BYTES == 0 && ParseSet(count, cb, up, bytes) == Good(e)
    ensures 2 + NameEntries(|e.name|) <= |bytes| / ENTRY_BYTES
  {
  }

  /** All slots of the root are in use. */
  lemma RootFull(v: Volume, slot: nat, i: nat)
    requires v.cb == 512 && v.root.first == 3 && v.root.length == 512 && i < 16
    requires v.T().Has(3, slot) && |v.T().At(3, slot).entry.name| == 196 && v.Valid()
    ensures |v.Bytes(RootId)| == 512 && Slots(v.Bytes(RootId)) == 16 && TypeAt(v.Bytes(RootId), i) >= 0x80
  {
    hide *;
    v.ValidParts();
    v.RootNode();
    v.DirReady(ROOT_ID, {}, {});
    v.DirParts(ROOT_ID);
    DirIdIs(ROOT_ID);
    v.OpenedParts(v.root, RootId);
    v.DirScan(v.root, RootId, {}, {});
    RecordAt(v, 3, slot);
    SetFills(v.count, v.cb, v.up, v.Bytes(RootId), v.dirs[3], slot, i);
  }

  lemma RecordAt(v: Volume, d: nat, q: nat)
    requires v.T().Has(d, q)
    ensures d in v.dirs && q in v.dirs[d] && v.T().At(d, q) == v.dirs[d][q]
  {
  }

  /** However many clusters are free, a root of 512-byte clusters all of whose slots are in
      use gets no set of 17 slots or more. */
  lemma NeverRoom(v: Volume, n: nat, spare: int)
    requires v.cb == 512 && |v.Bytes(RootId)| % ENTRY_BYTES == 0 && 16 < n
    requires forall i :: 0 <= i < Slots(v.Bytes(RootId)) ==> TypeAt(v.Bytes(RootId), i) >= 0x80
    ensures !v.RoomWith(ROOT_ID, n, spare)
  {
    hide *;
    DirIdIs(ROOT_ID);
    GrownShort(v.Bytes(RootId), n);
    v.RoomWithIs(ROOT_ID, n, spare);
  }

  /** A new volume of 100 clusters with one empty file in it, whose name fills the first
      cluster of the root.  Clusters are free, and nothing is wrong with a name of 17 slots
      or more, but there is no room for it. */
  method FilledRoot(up: Upcase, ghost other: seq<byte>) returns (v: Volume, error: Error)
    requires GoodName(other) && SlotsFor(other) > 16
    ensures fresh(v) && v.Valid() && v.cb > 0 && v.Node(ROOT_ID) && error == NoError
    ensures v.Free() > 0 && v.CreateCheck(ROOT_ID, other, RegularFile) == NoError
    ensures !v.CreateFits(ROOT_ID, SlotsFor(other), false)
  {
    Sizes();
    Harmless();
    hide *;
    v := new Volume.Format(100, 512, up);
    var name := Encode(Repeated(0x61, 196));
    RepeatedGood(0x61, 196);
    RepeatedShort(0x61, 196);
    EmptyRoot(v, name, RegularFile);
    ghost var t := v.T();
    v.TreeParts();
    var node;
    ghost var slot, s;
    error, node, slot, s := v.Create(ROOT_ID, name, RegularFile);
    OnlySet(t, v.T(), 3, slot, Entry(s, 0x20, Repeated(0x61, 196)));
    forall i | 0 <= i < 16
      ensures |v.Bytes(RootId)| == 512 && Slots(v.Bytes(RootId)) == 16 && TypeAt(v.Bytes(RootId), i) >= 0x80
    {
      RootFull(v, slot, i);
    }
    RootFull(v, slot, 0);
    NeverRoom(v, SlotsFor(other), v.Free());
    RecordAt(v, 3, slot);
    v.TreeParts();
    LongOther(other);
    OtherName(v, slot, other);
  }

  /** A name of 17 slots or more has more than 196 units. */
  lemma LongOther(name: seq<byte>)
    requires GoodName(name) && SlotsFor(name) > 16
    ensures |Wanted(name).value| > 196
  {
    hide Wanted, LegalName;
  }

  /** So `create` ends in `NoSpace` there, for 211 letters or more. */
  method ShortRoot(up: Upcase, n: nat) returns (v: Volume, error: Error)
    requires 211 <= n <= 255
    ensures v.Valid() && error == NoSpace
  {
    Harmless();
    hide *;
    var name := Encode(Repeated(0x62, n));
    RepeatedGood(0x62, n);
    ManySlots(n);
    v, error := FilledRoot(up, name);
    var node;
    ghost var slot, s;
    error, node, slot, s := v.Create(ROOT_ID, name, RegularFile);
  }

  lemma ManySlots(n: nat)
    requires n >= 211
    ensures 2 + NameEntries(n) > 16
  {
  }

  /** These names are spelled in one byte each. */
  lemma RepeatedShort(u: unit, n: nat)
    requires 0 < u < 0x80
    ensures |Encode(Repeated(u, n))| == n
  {
    RepeatedLength(u, n);
    assert |EncodePoint(u)| == 1;
  }

  lemma Harmless()
    ensures forall u :: 0x61 <= u <= 0x7A || u == 0x800 ==> !HighSurrogate(u) && !ForbiddenUnit(u)
  {
  }

  /** A name of another length than all there are can be added, if there is room. */
  lemma OtherName(v: Volume, slot: nat, name: seq<byte>)
    requires v.cb > 0 && v.writable && v.root.first in v.dirs && slot in v.dirs[v.root.first]
    requires forall q :: q in v.dirs[v.root.first] ==> q == slot
    requires GoodName(name) && |v.dirs[v.root.first][slot].entry.name| != |Wanted(name).value|
    ensures v.CreateCheck(ROOT_ID, name, RegularFile) == NoError && v.Node(ROOT_ID)
    ensures v.CreateFits(ROOT_ID, SlotsFor(name), false) <==> v.RoomWith(ROOT_ID, SlotsFor(name), v.Free())
  {
    hide v.Free, v.RoomWith, Wanted, LegalName, SlotsFor;
  }
}
