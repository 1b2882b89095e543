/** A directory of kernel/fs/exfat.cpp as a collection of entry sets in an array of
    32-byte slots. */
module ExfatDirectory {
  import opened Common
  import opened ExfatDisk
  import opened ExfatEntries

  /** A good entry set and the number of slots it takes. */
  datatype Rec = Rec(entry: Entry, size: nat)

  predicate Whole(content: seq<byte>) { |content| % ENTRY_BYTES == 0 }

  function Slots(content: seq<byte>): nat { |content| / ENTRY_BYTES }

  function TypeAt(content: seq<byte>, i: nat): byte
    requires i < Slots(content)
  {
    content[i * ENTRY_BYTES]
  }

  function SetBytes(content: seq<byte>, slot: nat, size: nat): (r: seq<byte>)
    requires slot + size <= Slots(content)
    ensures |r| == size * ENTRY_BYTES
  {
    content[slot * ENTRY_BYTES..(slot + size) * ENTRY_BYTES]
  }

  // ------------------------------------------------------------------ scanning

  datatype Step = End | Skip(n: nat) | Found(rec: Rec)

  /** One iteration of `next_entry`. */
  function StepAt(count: nat, cb: nat, up: Upcase, content: seq<byte>, slot: nat): (step: Step)
    requires cb > 0 && slot < Slots(content)
    ensures step.Skip? ==> step.n > 0
  {
    var kind := TypeAt(content, slot);
    if kind == 0 then End
    else if kind != 0x85 then Skip(1)
    else
      var size := content[slot * ENTRY_BYTES + 1] as nat + 1;
      if size < 3 || size > MAX_SET || slot + size > Slots(content) then Skip(1)
      else
        match ParseSet(count, cb, up, SetBytes(content, slot, size))
        case Damaged => Skip(1)
        case Unusable => Skip(size)
        case Good(entry) => Found(Rec(entry, size))
  }

  datatype Hit = Hit(slot: nat, rec: Rec)

  /** The set `next_entry` finds from `slot` on, for any content. */
  function NextSet(count: nat, cb: nat, up: Upcase, content: seq<byte>, slot: nat): (hit: Option<Hit>)
    requires cb > 0
    decreases Slots(content) - slot
  {
    if slot > MAX_SLOT || slot >= Slots(content) then None
    else
      match StepAt(count, cb, up, content, slot)
      case End => None
      case Skip(n) => NextSet(count, cb, up, content, slot + n)
      case Found(rec) => Some(Hit(slot, rec))
  }

  // ------------------------------------------------------------ the collection

  ghost predicate SetAt(count: nat, cb: nat, up: Upcase, content: seq<byte>, slot: nat, rec: Rec)
    requires cb > 0
  {
    && 3 <= rec.size <= MAX_SET && slot + rec.size <= Slots(content)
    && content[slot * ENTRY_BYTES] == 0x85 && content[slot * ENTRY_BYTES + 1] == rec.size - 1
    && ParseSet(count, cb, up, SetBytes(content, slot, rec.size)) == Good(rec.entry)
  }

  /** The content holds exactly the sets `ents`, and nothing in use follows an end
      marker. */
  ghost predicate DirOk(count: nat, cb: nat, up: Upcase, content: seq<byte>, ents: map<nat, Rec>)
    requires cb > 0
  {
    && Whole(content)
    && (forall s :: s in ents ==> SetAt(count, cb, up, content, s, ents[s]))
    && (forall i :: 0 <= i < Slots(content) && TypeAt(content, i) == 0x85 ==> i in ents)
    && (forall i, j :: 0 <= i < j < Slots(content) && TypeAt(content, i) == 0 ==> TypeAt(content, j) < 0x80)
  }

  lemma ShapedTypes(count: nat, cb: nat, up: Upcase, bytes: seq<byte>, j: nat)
    requires cb > 0 && |bytes| >= 96 && |bytes| % ENTRY_BYTES == 0
    requires ParseSet(count, cb, up, bytes).Good? && 1 <= j < |bytes| / ENTRY_BYTES
    ensures bytes[j * ENTRY_BYTES] >= 0xC0
  {
    assert WellShaped(bytes);
    hide SetChecksum, NameEntries, ParseSet;
    if j > 1 {
      if j < 2 + NameEntries(bytes[35]) {
        assert bytes[j * ENTRY_BYTES] == 0xC1;
      } else {
        assert bytes[j * ENTRY_BYTES] >= 0xC0;
      }
    }
  }

  /** The slots of a set after its first are in-use secondaries. */
  lemma InsideSet(count: nat, cb: nat, up: Upcase, content: seq<byte>, slot: nat, rec: Rec, i: nat)
    requires cb > 0 && SetAt(count, cb, up, content, slot, rec)
    requires slot < i < slot + rec.size
    ensures TypeAt(content, i) >= 0xC0
  {
    hide ParseSet;
    var bytes := SetBytes(content, slot, rec.size);
    assert bytes[(i - slot) * ENTRY_BYTES] == TypeAt(content, i);
    ShapedTypes(count, cb, up, bytes, i - slot);
  }

  /** On a well-formed directory `next_entry` finds the sets in slot order: each
      exactly once, none missed. */
  lemma {:induction false} NextInDir(count: nat, cb: nat, up: Upcase, content: seq<byte>, ents: map<nat, Rec>,
                                     slot: nat)
    requires cb > 0 && DirOk(count, cb, up, content, ents) && Slots(content) <= MAX_SLOT + 1
    ensures match NextSet(count, cb, up, content, slot)
            case None => forall t :: t in ents ==> t < slot
            case Some(hit) =>
              && slot <= hit.slot && hit.slot in ents && ents[hit.slot] == hit.rec
              && forall t :: t in ents && t >= slot ==> t >= hit.slot
    decreases Slots(content) - slot
  {
    hide DirOk, SetAt, ParseSet;
    if slot < Slots(content) {
      StepInDir(count, cb, up, content, ents, slot);
      if TypeAt(content, slot) != 0 && slot !in ents {
        NextInDir(count, cb, up, content, ents, slot + 1);
      }
    } else {
      forall t | t in ents ensures t < slot { SetOf(count, cb, up, content, ents, t); }
    }
  }

  /** One step on a well-formed directory: a set, an end after which there is none, or
      a slot that starts none. */
  lemma StepInDir(count: nat, cb: nat, up: Upcase, content: seq<byte>, ents: map<nat, Rec>, slot: nat)
    requires cb > 0 && DirOk(count, cb, up, content, ents) && slot < Slots(content)
    ensures slot in ents ==> StepAt(count, cb, up, content, slot) == Found(ents[slot])
    ensures TypeAt(content, slot) == 0 ==> forall t :: t in ents ==> t < slot
    ensures slot !in ents ==> StepAt(count, cb, up, content, slot) == if TypeAt(content, slot) == 0 then End
            else Skip(1)
  {
    hide ParseSet;
    assert slot in ents ==> SetAt(count, cb, up, content, slot, ents[slot]);
    if TypeAt(content, slot) == 0 {
      forall t | t in ents ensures t < slot {
        assert SetAt(count, cb, up, content, t, ents[t]);
        assert TypeAt(content, t) == 0x85;
      }
    }
  }

  // ------------------------------------------------------- changing a directory

  /** `content` with `bytes` written over the slots from `slot` on. */
  function Over(content: seq<byte>, slot: nat, bytes: seq<byte>): (r: seq<byte>)
    requires slot * ENTRY_BYTES + |bytes| <= |content|
    ensures |r| == |content|
  {
    Splice(content, slot * ENTRY_BYTES, bytes)
  }

  lemma OverTypes(content: seq<byte>, slot: nat, bytes: seq<byte>, i: nat)
    requires |bytes| % ENTRY_BYTES == 0 && slot * ENTRY_BYTES + |bytes| <= |content| && i < Slots(content)
    ensures TypeAt(Over(content, slot, bytes), i) ==
            if slot <= i < slot + |bytes| / ENTRY_BYTES then bytes[(i - slot) * ENTRY_BYTES] else TypeAt(content, i)
  {
  }

  /** A set that does not meet the slots written keeps its bytes. */
  lemma OverApart(count: nat, cb: nat, up: Upcase, content: seq<byte>, slot: nat, bytes: seq<byte>, t: nat, rec: Rec)
    requires cb > 0 && |bytes| % ENTRY_BYTES == 0 && slot * ENTRY_BYTES + |bytes| <= |content|
    requires SetAt(count, cb, up, content, t, rec)
    requires t + rec.size <= slot || slot + |bytes| / ENTRY_BYTES <= t
    ensures SetAt(count, cb, up, Over(content, slot, bytes), t, rec)
  {
    hide ParseSet;
    assert SetBytes(Over(content, slot, bytes), t, rec.size) == SetBytes(content, t, rec.size);
  }

  lemma OverHere(count: nat, cb: nat, up: Upcase, content: seq<byte>, slot: nat, bytes: seq<byte>, rec: Rec)
    requires cb > 0 && slot * ENTRY_BYTES + |bytes| <= |content|
    requires 3 <= rec.size <= MAX_SET && |bytes| == rec.size * ENTRY_BYTES
    requires bytes[0] == 0x85 && bytes[1] == rec.size - 1
    requires ParseSet(count, cb, up, bytes) == Good(rec.entry)
    ensures SetAt(count, cb, up, Over(content, slot, bytes), slot, rec)
  {
    hide ParseSet;
    assert SetBytes(Over(content, slot, bytes), slot, rec.size) == bytes;
  }

  /** Two sets of a directory do not overlap. */
  lemma SetsApart(count: nat, cb: nat, up: Upcase, content: seq<byte>, ents: map<nat, Rec>, s: nat, t: nat)
    requires cb > 0 && DirOk(count, cb, up, content, ents) && s in ents && t in ents && s < t
    ensures s + ents[s].size <= t
  {
    assert SetAt(count, cb, up, content, s, ents[s]) && SetAt(count, cb, up, content, t, ents[t]);
    assert TypeAt(content, t) == 0x85;
    if t < s + ents[s].size { InsideSet(count, cb, up, content, s, ents[s], t); }
  }

  /** The whole of a set is in use. */
  lemma SetInUse(count: nat, cb: nat, up: Upcase, content: seq<byte>, slot: nat, rec: Rec, i: nat)
    requires cb > 0 && SetAt(count, cb, up, content, slot, rec) && slot <= i < slot + rec.size
    ensures TypeAt(content, i) >= 0x80 && (i > slot ==> TypeAt(content, i) >= 0xC0)
  {
    if i > slot { InsideSet(count, cb, up, content, slot, rec, i); }
  }

  /** Inserting a good set into free slots with no end marker before them adds
      exactly that set. */
  lemma InsertKeeps(count: nat, cb: nat, up: Upcase, content: seq<byte>, ents: map<nat, Rec>, slot: nat,
                    bytes: seq<byte>, rec: Rec)
    requires cb > 0 && DirOk(count, cb, up, content, ents)
    requires 3 <= rec.size <= MAX_SET && |bytes| == rec.size * ENTRY_BYTES && slot + rec.size <= Slots(content)
    requires bytes[0] == 0x85 && bytes[1] == rec.size - 1
    requires ParseSet(count, cb, up, bytes) == Good(rec.entry)
    requires forall i :: slot <= i < slot + rec.size ==> TypeAt(content, i) < 0x80
    requires forall i :: 0 <= i < slot ==> TypeAt(content, i) != 0
    ensures slot !in ents
    ensures DirOk(count, cb, up, Over(content, slot, bytes), ents[slot := rec])
  {
    hide DirOk, SetAt, ParseSet, Over, TypeAt;
    Fits(content, slot, rec.size);
    var after := Over(content, slot, bytes);
    assert TypeAt(content, slot) < 0x80;
    if slot in ents { SetOf(count, cb, up, content, ents, slot); }
    OverHere(count, cb, up, content, slot, bytes, rec);
    forall t | t in ents ensures SetAt(count, cb, up, after, t, ents[t]) {
      SetOf(count, cb, up, content, ents, t);
      FreeApart(count, cb, up, content, slot, rec.size, t, ents[t]);
      OverApart(count, cb, up, content, slot, bytes, t, ents[t]);
    }
    forall i | 0 <= i < Slots(content)
      ensures TypeAt(after, i) == 0x85 ==> i in ents || i == slot
      ensures TypeAt(after, i) == 0 ==> i >= slot + rec.size && TypeAt(content, i) == 0
      ensures i >= slot + rec.size ==> TypeAt(after, i) == TypeAt(content, i)
    {
      OverTypes(content, slot, bytes, i);
      if slot <= i < slot + rec.size {
        SetInUse(count, cb, up, after, slot, rec, i);
      } else if TypeAt(content, i) == 0x85 {
        FileSlot(count, cb, up, content, ents, i);
      }
    }
    NothingAfterEnd(count, cb, up, content, ents, after, ents[slot := rec]);
  }

  lemma NothingAfterEnd(count: nat, cb: nat, up: Upcase, content: seq<byte>, ents: map<nat, Rec>, after: seq<byte>,
                        ents': map<nat, Rec>)
    requires cb > 0 && DirOk(count, cb, up, content, ents) && |after| == |content|
    requires forall s :: s in ents' ==> SetAt(count, cb, up, after, s, ents'[s])
    requires forall i :: 0 <= i < Slots(content) && TypeAt(after, i) == 0x85 ==> i in ents'
    requires forall i, j :: 0 <= i < j < Slots(content) && TypeAt(after, i) == 0 ==>
               TypeAt(content, i) == 0 && TypeAt(after, j) == TypeAt(content, j)
    ensures DirOk(count, cb, up, after, ents')
  {
    hide SetAt;
  }

  /** A set in use lies outside any run of free slots. */
  lemma FreeApart(count: nat, cb: nat, up: Upcase, content: seq<byte>, slot: nat, size: nat, t: nat, rec: Rec)
    requires cb > 0 && SetAt(count, cb, up, content, t, rec) && 0 < size && slot + size <= Slots(content)
    requires forall i :: slot <= i < slot + size ==> TypeAt(content, i) < 0x80
    ensures t + rec.size <= slot || slot + size <= t
  {
    var i := if t < slot then slot else t;
    if t <= i < t + rec.size { SetInUse(count, cb, up, content, t, rec, i); }
  }

  lemma SetOf(count: nat, cb: nat, up: Upcase, content: seq<byte>, ents: map<nat, Rec>, t: nat)
    requires cb > 0 && DirOk(count, cb, up, content, ents) && t in ents
    ensures SetAt(count, cb, up, content, t, ents[t])
    ensures 3 <= ents[t].size <= MAX_SET && t + ents[t].size <= Slots(content) && TypeAt(content, t) == 0x85
    ensures var bytes := SetBytes(content, t, ents[t].size);
            |bytes| >= 96 && |bytes| % ENTRY_BYTES == 0 && bytes[0] == 0x85 && bytes[1] == ents[t].size - 1
    ensures ParseSet(count, cb, up, SetBytes(content, t, ents[t].size)) == Good(ents[t].entry)
  {
    hide ParseSet;
    assert SetAt(count, cb, up, content, t, ents[t]);
  }

  lemma SetStream(count: nat, cb: nat, up: Upcase, content: seq<byte>, ents: map<nat, Rec>, t: nat)
    requires cb > 0 && DirOk(count, cb, up, content, ents) && t in ents
    ensures ContentOk(count, cb, ents[t].entry.stream)
  {
    assert SetAt(count, cb, up, content, t, ents[t]);
    hide WellShaped, ContentOk, NameOf, StreamOf;
  }

  lemma SlotCount(bytes: seq<byte>, size: nat)
    requires |bytes| == size * ENTRY_BYTES
    ensures |bytes| % ENTRY_BYTES == 0 && |bytes| / ENTRY_BYTES == size
  {
  }

  lemma Fits(content: seq<byte>, slot: nat, size: nat)
    requires slot + size <= Slots(content)
    ensures slot * ENTRY_BYTES + size * ENTRY_BYTES <= |content|
  {
  }

  /** Writing over one set leaves every other set alone. */
  lemma OthersKept(count: nat, cb: nat, up: Upcase, content: seq<byte>, ents: map<nat, Rec>, slot: nat,
                   bytes: seq<byte>, t: nat)
    requires cb > 0 && DirOk(count, cb, up, content, ents) && slot in ents
    requires slot + ents[slot].size <= Slots(content) && |bytes| == ents[slot].size * ENTRY_BYTES
    requires t in ents && t != slot
    ensures SetAt(count, cb, up, Over(content, slot, bytes), t, ents[t])
  {
    hide *;
    Fits(content, slot, ents[slot].size);
    SetOf(count, cb, up, content, ents, t);
    SlotCount(bytes, ents[slot].size);
    if t < slot { SetsApart(count, cb, up, content, ents, t, slot); }
       else { SetsApart(count, cb, up, content, ents, slot, t); }
    OverApart(count, cb, up, content, slot, bytes, t, ents[t]);
  }

  /** The rest of `DirOk` from what the write does to the slot types. */
  lemma TypesKeep(count: nat, cb: nat, up: Upcase, content: seq<byte>, ents: map<nat, Rec>, after: seq<byte>,
                  ents': map<nat, Rec>)
    requires cb > 0 && DirOk(count, cb, up, content, ents) && |after| == |content|
    requires forall s :: s in ents' ==> SetAt(count, cb, up, after, s, ents'[s])
    requires forall i :: 0 <= i < Slots(content) ==>
               && (TypeAt(after, i) == 0x85 ==> i in ents')
               && (TypeAt(after, i) == 0 ==> TypeAt(content, i) == 0)
               && (TypeAt(after, i) >= 0x80 ==> TypeAt(content, i) >= 0x80)
    ensures DirOk(count, cb, up, after, ents')
  {
    hide SetAt;
    forall i, j | 0 <= i < j < Slots(after) && TypeAt(after, i) == 0 ensures TypeAt(after, j) < 0x80 {
      assert TypeAt(content, i) == 0 && TypeAt(content, j) < 0x80;
    }
  }

  lemma FileSlot(count: nat, cb: nat, up: Upcase, content: seq<byte>, ents: map<nat, Rec>, i: nat)
    requires cb > 0 && DirOk(count, cb, up, content, ents) && i < Slots(content) && TypeAt(content, i) == 0x85
    ensures i in ents
  {
  }

  lemma StoredHere(count: nat, cb: nat, up: Upcase, content: seq<byte>, ents: map<nat, Rec>, slot: nat, s: Stream)
    requires cb > 0 && DirOk(count, cb, up, content, ents) && slot in ents
    requires slot + ents[slot].size <= Slots(content) && ents[slot].size >= 3
    requires Storable(s) && ContentOk(count, cb, s)
    ensures var rec := ents[slot];
            SetAt(count, cb, up, Over(content, slot, WithStream(SetBytes(content, slot, rec.size), s)), slot,
                  rec.(entry := rec.entry.(stream := s)))
  {
    hide *;
    var rec := ents[slot];
    Fits(content, slot, rec.size);
    var bytes := SetBytes(content, slot, rec.size);
    SetOf(count, cb, up, content, ents, slot);
    StoredSet(count, cb, up, bytes, rec.entry, s);
    OverHere(count, cb, up, content, slot, WithStream(bytes, s), rec.(entry := rec.entry.(stream := s)));
  }

  lemma StoredType(count: nat, cb: nat, up: Upcase, content: seq<byte>, ents: map<nat, Rec>, slot: nat,
                   bytes: seq<byte>, rec': Rec, i: nat)
    requires cb > 0 && DirOk(count, cb, up, content, ents) && slot in ents
    requires slot + ents[slot].size <= Slots(content) && |bytes| == ents[slot].size * ENTRY_BYTES
    requires rec'.size == ents[slot].size && SetAt(count, cb, up, Over(content, slot, bytes), slot, rec')
    requires i < Slots(content)
    ensures var after := Over(content, slot, bytes);
            && (TypeAt(after, i) == 0x85 ==> i in ents)
            && (TypeAt(after, i) == 0 ==> TypeAt(content, i) == 0)
            && (TypeAt(after, i) >= 0x80 ==> TypeAt(content, i) >= 0x80)
  {
    hide DirOk, SetAt, Over, TypeAt, SetBytes;
    OverTypes(content, slot, bytes, i);
    SetOf(count, cb, up, content, ents, slot);
    if slot <= i < slot + ents[slot].size {
      SetInUse(count, cb, up, content, slot, ents[slot], i);
      SetInUse(count, cb, up, Over(content, slot, bytes), slot, rec', i);
    } else if TypeAt(content, i) == 0x85 {
      FileSlot(count, cb, up, content, ents, i);
    }
  }

  /** `store` changes one set's stream and no other set. */
  lemma StoreKeeps(count: nat, cb: nat, up: Upcase, content: seq<byte>, ents: map<nat, Rec>, slot: nat, s: Stream)
    requires cb > 0 && DirOk(count, cb, up, content, ents) && slot in ents
    requires slot + ents[slot].size <= Slots(content) && ents[slot].size >= 3
    requires Storable(s) && ContentOk(count, cb, s)
    ensures var rec := ents[slot];
            DirOk(count, cb, up, Over(content, slot, WithStream(SetBytes(content, slot, rec.size), s)),
                  ents[slot := rec.(entry := rec.entry.(stream := s))])
  {
    hide DirOk, SetAt, Over, WithStream, SetBytes, ParseSet, TypeAt, ContentOk, Storable;
    var rec := ents[slot];
    Fits(content, slot, rec.size);
    var bytes' := WithStream(SetBytes(content, slot, rec.size), s);
    var after := Over(content, slot, bytes');
    var rec' := rec.(entry := rec.entry.(stream := s));
    StoredHere(count, cb, up, content, ents, slot, s);
    forall t | t in ents && t != slot ensures SetAt(count, cb, up, after, t, ents[t]) {
      OthersKept(count, cb, up, content, ents, slot, bytes', t);
    }
    forall i | 0 <= i < Slots(content)
      ensures TypeAt(after, i) == 0x85 ==> i in ents
      ensures TypeAt(after, i) == 0 ==> TypeAt(content, i) == 0
      ensures TypeAt(after, i) >= 0x80 ==> TypeAt(content, i) >= 0x80
    {
      StoredType(count, cb, up, content, ents, slot, bytes', rec', i);
    }
    TypesKeep(count, cb, up, content, ents, after, ents[slot := rec']);
  }

  lemma ErasedType(count: nat, cb: nat, up: Upcase, content: seq<byte>, ents: map<nat, Rec>, slot: nat, i: nat)
    requires cb > 0 && DirOk(count, cb, up, content, ents) && slot in ents
    requires slot + ents[slot].size <= Slots(content) && i < Slots(content)
    ensures var after := Over(content, slot, Erased(SetBytes(content, slot, ents[slot].size)));
            && (TypeAt(after, i) == 0x85 ==> i in ents && i != slot)
            && (TypeAt(after, i) == 0 ==> TypeAt(content, i) == 0)
            && (TypeAt(after, i) >= 0x80 ==> TypeAt(content, i) >= 0x80)
  {
    hide DirOk, SetAt, Over, TypeAt, SetBytes, Erased;
    var rec := ents[slot];
    Fits(content, slot, rec.size);
    OverTypes(content, slot, Erased(SetBytes(content, slot, rec.size)), i);
    SetOf(count, cb, up, content, ents, slot);
    if slot <= i < slot + rec.size {
      SetInUse(count, cb, up, content, slot, rec, i);
      ErasedTypes(content, slot, rec.size, i);
    } else if TypeAt(content, i) == 0x85 {
      FileSlot(count, cb, up, content, ents, i);
    }
  }

  /** `erase` removes one set and no other. */
  lemma EraseKeeps(count: nat, cb: nat, up: Upcase, content: seq<byte>, ents: map<nat, Rec>, slot: nat)
    requires cb > 0 && DirOk(count, cb, up, content, ents) && slot in ents
    requires slot + ents[slot].size <= Slots(content)
    ensures DirOk(count, cb, up, Over(content, slot, Erased(SetBytes(content, slot, ents[slot].size))), ents - {slot})
  {
    hide DirOk, SetAt, Over, TypeAt, SetBytes, Erased, ParseSet;
    Fits(content, slot, ents[slot].size);
    var bytes' := Erased(SetBytes(content, slot, ents[slot].size));
    var after := Over(content, slot, bytes');
    forall t | t in ents && t != slot ensures SetAt(count, cb, up, after, t, ents[t]) {
      OthersKept(count, cb, up, content, ents, slot, bytes', t);
    }
    forall i | 0 <= i < Slots(content)
      ensures TypeAt(after, i) == 0x85 ==> i in ents && i != slot
      ensures TypeAt(after, i) == 0 ==> TypeAt(content, i) == 0
      ensures TypeAt(after, i) >= 0x80 ==> TypeAt(content, i) >= 0x80
    {
      ErasedType(count, cb, up, content, ents, slot, i);
    }
    TypesKeep(count, cb, up, content, ents, after, ents - {slot});
  }

  lemma ErasedTypes(content: seq<byte>, slot: nat, size: nat, i: nat)
    requires slot + size <= Slots(content) && slot <= i < slot + size
    ensures Erased(SetBytes(content, slot, size))[(i - slot) * ENTRY_BYTES] == TypeAt(content, i) % 128
  {
    assert SetBytes(content, slot, size)[(i - slot) * ENTRY_BYTES] == TypeAt(content, i);
  }

  /** A zeroed cluster at the end adds end markers and no set. */
  lemma GrowKeeps(count: nat, cb: nat, up: Upcase, content: seq<byte>, ents: map<nat, Rec>, more: nat)
    requires cb > 0 && more % ENTRY_BYTES == 0 && DirOk(count, cb, up, content, ents)
    ensures DirOk(count, cb, up, content + Zeros(more), ents)
  {
    hide ParseSet;
    var after := content + Zeros(more);
    forall t | t in ents ensures SetAt(count, cb, up, after, t, ents[t]) {
      assert SetAt(count, cb, up, content, t, ents[t]);
      assert SetBytes(after, t, ents[t].size) == SetBytes(content, t, ents[t].size);
    }
    forall i | 0 <= i < Slots(after)
      ensures TypeAt(after, i) == if i < Slots(content) then TypeAt(content, i) else 0
    {
    }
  }

  lemma EmptyDirectory(count: nat, cb: nat, up: Upcase, bytes: nat)
    requires cb > 0 && bytes % ENTRY_BYTES == 0
    ensures DirOk(count, cb, up, Zeros(bytes), map[])
  {
  }

  // ---------------------------------------------------------------- free slots

  /** `n` slots from `i` on are free. */
  ghost predicate FreeRun(content: seq<byte>, i: nat, n: nat) {
    i + n <= Slots(content) && forall j :: i <= j < i + n ==> TypeAt(content, j) < 0x80
  }

  /** No free run of `n` slots lies within the first `upto`. */
  ghost predicate NoRun(content: seq<byte>, n: nat, upto: nat) {
    forall i: nat :: i + n <= upto ==> !FreeRun(content, i, n)
  }

  /** No free run of `n` slots anywhere. */
  ghost predicate Full(content: seq<byte>, n: nat) { NoRun(content, n, Slots(content)) }

  /** The free slots just before `at` number `run`, counted as far back as they go. */
  ghost predicate RunUpTo(content: seq<byte>, at: nat, run: nat) {
    && run <= at <= Slots(content) && FreeRun(content, at - run, run)
    && (run < at ==> TypeAt(content, at - run - 1) >= 0x80)
  }

  lemma RunStep(content: seq<byte>, n: nat, at: nat, run: nat)
    requires n > 0 && RunUpTo(content, at, run) && run < n && NoRun(content, n, at) && at < Slots(content)
    ensures var run' := if TypeAt(content, at) < 0x80 then run + 1 else 0;
            RunUpTo(content, at + 1, run') && (run' < n ==> NoRun(content, n, at + 1))
  {
    var run' := if TypeAt(content, at) < 0x80 then run + 1 else 0;
    if run' < n {
      forall i: nat | i + n <= at + 1 ensures !FreeRun(content, i, n) {
        if i + n == at + 1 { assert TypeAt(content, at - run') >= 0x80; }
      }
    }
  }

  /** A maximal run of free slots has no end marker before it. */
  lemma NoEndBefore(count: nat, cb: nat, up: Upcase, content: seq<byte>, ents: map<nat, Rec>, at: nat, run: nat)
    requires cb > 0 && DirOk(count, cb, up, content, ents) && RunUpTo(content, at, run)
    ensures forall i :: 0 <= i < at - run ==> TypeAt(content, i) != 0
  {
  }

  /** A zeroed tail of `n` slots or more is a free run. */
  lemma ZeroRun(content: seq<byte>, more: nat, n: nat)
    requires |content| % ENTRY_BYTES == 0 && n * ENTRY_BYTES <= more && more % ENTRY_BYTES == 0
    ensures FreeRun(content + Zeros(more), Slots(content), n)
  {
  }

  // ---------------------------------------------------- room after one more cluster

  /** Slots of a directory with `more` zero bytes behind it. */
  lemma GrownSlot(content: seq<byte>, more: nat, i: nat)
    requires |content| % ENTRY_BYTES == 0 && more % ENTRY_BYTES == 0
    ensures Slots(content + Zeros(more)) == Slots(content) + more / ENTRY_BYTES
    ensures i < Slots(content) ==> TypeAt(content + Zeros(more), i) == TypeAt(content, i)
    ensures Slots(content) <= i < Slots(content + Zeros(more)) ==> TypeAt(content + Zeros(more), i) == 0
  {
  }

  /** A directory without room has room after it grew exactly when its free slots at the
      end and the new ones together are enough. */
  lemma GrownExact(content: seq<byte>, more: nat, n: nat, run: nat)
    requires |content| % ENTRY_BYTES == 0 && more % ENTRY_BYTES == 0 && Full(content, n)
    requires RunUpTo(content, Slots(content), run)
    ensures Full(content + Zeros(more), n) <==> run + more / ENTRY_BYTES < n
  {
    var grown, last := content + Zeros(more), Slots(content);
    GrownSlot(content, more, 0);
    forall i: nat ensures i < last ==> TypeAt(grown, i) == TypeAt(content, i)
                  ensures last <= i < Slots(grown) ==> TypeAt(grown, i) == 0
    {
      GrownSlot(content, more, i);
    }
    if run + more / ENTRY_BYTES < n {
      forall i: nat | i + n <= Slots(grown) ensures !FreeRun(grown, i, n) {
        if i + n <= last {
          assert !FreeRun(content, i, n);
        } else {
          assert TypeAt(content, last - run - 1) >= 0x80;
        }
      }
    } else {
      assert FreeRun(grown, last - run, n);
    }
  }

  /** A zeroed cluster of 1024 bytes or more has room for any set. */
  lemma GrownRoom(content: seq<byte>, more: nat, n: nat)
    requires |content| % ENTRY_BYTES == 0 && more % ENTRY_BYTES == 0 && 1024 <= more && n <= MAX_SET
    ensures !Full(content + Zeros(more), n)
  {
    ZeroRun(content, more, n);
    assert FreeRun(content + Zeros(more), Slots(content), n);
  }

  /** One of 512 bytes has not: a directory all of whose slots are in use stays without room
      for a set of 17 slots or more. */
  lemma GrownShort(content: seq<byte>, n: nat)
    requires |content| % ENTRY_BYTES == 0 && 16 < n && forall i :: 0 <= i < Slots(content) ==>
             TypeAt(content, i) >= 0x80
    ensures Full(content, n) && Full(content + Zeros(512), n)
  {
    forall i: nat | i + n <= Slots(content) ensures !FreeRun(content, i, n) {
      assert TypeAt(content, i) >= 0x80;
    }
    GrownExact(content, 512, n, 0);
  }

  lemma KnownStep(count: nat, cb: nat, up: Upcase, content: seq<byte>, slot: nat, rec: Rec)
    requires cb > 0 && SetAt(count, cb, up, content, slot, rec)
    ensures rec.size >= 3 && slot * ENTRY_BYTES < (slot + rec.size) * ENTRY_BYTES && slot < Slots(content)
    ensures StepAt(count, cb, up, content, slot) == Found(rec)
  {
    hide ParseSet;
  }

  /** The branches of one scanning step. */
  lemma StepCases(count: nat, cb: nat, up: Upcase, content: seq<byte>, slot: nat)
    requires cb > 0 && slot < Slots(content)
    ensures 32 * slot + 32 <= |content|
    ensures var kind, size, step :=
            content[32 * slot], content[32 * slot + 1] as nat + 1, StepAt(count, cb, up, content, slot);
            && (kind == 0 ==> step == End)
            && (kind != 0 && kind != 0x85 ==> step == Skip(1))
            && (kind == 0x85 && (size < 3 || size > 19 || (slot + size) * 32 > |content|) ==> step == Skip(1))
            && (kind == 0x85 && 3 <= size <= 19 && (slot + size) * 32 <= |content| ==>
                  var bytes := content[slot * 32..(slot + size) * 32];
                  && |bytes| >= 96 && |bytes| % ENTRY_BYTES == 0
                  && step == match ParseSet(count, cb, up, bytes)
                             case Damaged => Skip(1)
                             case Unusable => Skip(size)
                             case Good(entry) => Found(Rec(entry, size)))
  {
    hide ParseSet;
  }

  lemma NoSetInside(count: nat, cb: nat, up: Upcase, content: seq<byte>, ents: map<nat, Rec>, slot: nat)
    requires cb > 0 && DirOk(count, cb, up, content, ents) && slot in ents
    ensures forall q :: q in ents && slot < q ==> slot + ents[slot].size <= q
  {
    forall q | q in ents && slot < q ensures slot + ents[slot].size <= q {
      SetsApart(count, cb, up, content, ents, slot, q);
    }
  }

  lemma PrefixSet(count: nat, cb: nat, up: Upcase, part: seq<byte>, all: seq<byte>, slot: nat, rec: Rec)
    requires cb > 0 && SetAt(count, cb, up, all, slot, rec) && part <= all && (slot + rec.size) * ENTRY_BYTES <= |part|
    ensures SetAt(count, cb, up, part, slot, rec)
  {
    hide ParseSet;
    assert SetBytes(part, slot, rec.size) == SetBytes(all, slot, rec.size);
    assert forall i :: 0 <= i < |part| ==> part[i] == all[i];
  }

  /** Writing through a prefix of a directory's clusters writes the directory. */
  lemma PrefixWrite(count: nat, cb: nat, data: seq<seq<byte>>, data': seq<seq<byte>>, pcs: seq<nat>, cs: seq<nat>,
                    slot: nat, bytes: seq<byte>)
    requires DataOk(count, cb, data) && DataOk(count, cb, data') && Clusters(count, cs) && Clusters(count, pcs)
    requires pcs <= cs && Distinct(cs)
    requires slot * ENTRY_BYTES + |bytes| <= |pcs| * cb && slot * ENTRY_BYTES + |bytes| <= |cs| * cb
    requires Content(count, cb, data', pcs) == Splice(Content(count, cb, data, pcs), slot * ENTRY_BYTES, bytes)
    requires SameOutside(data, data', pcs)
    ensures Content(count, cb, data', cs) == Over(Content(count, cb, data, cs), slot, bytes)
    ensures SameOutside(data, data', cs)
  {
    var before, after := Content(count, cb, data, cs), Content(count, cb, data', cs);
    var part, part' := Content(count, cb, data, pcs), Content(count, cb, data', pcs);
    ContentPrefix(count, cb, data, pcs, cs);
    ContentPrefix(count, cb, data', pcs, cs);
    forall k | 0 <= k < |cs| * cb ensures after[k] == Over(before, slot, bytes)[k] {
      if k < |pcs| * cb {
        assert after[k] == after[..|pcs| * cb][k] == part'[k] && before[k] == before[..|pcs| * cb][k] == part[k];
      } else {
        TailUnchanged(count, cb, data, data', pcs, cs, k);
      }
    }
    assert forall c :: c in pcs ==> c in cs;
  }

  lemma PrefixSlice(part: seq<byte>, all: seq<byte>, slot: nat, size: nat)
    requires |part| <= |all| && part == all[..|part|] && (slot + size) * 32 <= |part| && size > 0
    ensures part[slot * 32..(slot + size) * 32] == all[slot * 32..(slot + size) * 32]
    ensures part[slot * 32] == all[slot * 32] && part[slot * 32 + 1] == all[slot * 32 + 1]
    ensures all[slot * 32] == SetBytes(all, slot, size)[0] && all[slot * 32 + 1] == SetBytes(all, slot, size)[1]
  {
  }

  lemma SetBytesAre(content: seq<byte>, slot: nat, size: nat)
    requires slot + size <= Slots(content)
    ensures (slot + size) * 32 <= |content| && SetBytes(content, slot, size) == content[slot * 32..(slot + size) * 32]
  {
  }

  lemma NothingScanned(content: seq<byte>, n: nat)
    requires n > 0
    ensures RunUpTo(content, 0, 0) && NoRun(content, n, 0)
  {
  }

  /** A run that ends the first free slots found. */
  lemma RunIs(content: seq<byte>, slot: nat, n: nat)
    requires RunUpTo(content, slot + n, n)
    ensures slot + n <= Slots(content) && forall i :: slot <= i < slot + n ==> TypeAt(content, i) < 0x80
    ensures !Full(content, n)
  {
    assert FreeRun(content, slot, n);
  }

  lemma WholeLength(content: seq<byte>, length: nat)
    requires |content| == length && length % 32 == 0
    ensures Slots(content) * 32 == length
  {
  }

  lemma NoSets(ents: map<nat, Rec>)
    ensures (forall t :: t in ents ==> t < 0) <==> ents == map[]
  {
    if ents != map[] {
      var t :| t in ents;
      assert t in ents && t >= 0;
    }
  }

  /** The first two entries of a good set. */
  lemma SetHead(count: nat, cb: nat, up: Upcase, content: seq<byte>, slot: nat, rec: Rec, head: seq<byte>)
    requires cb > 0 && SetAt(count, cb, up, content, slot, rec) && (slot + 2) * 32 <= |content|
    requires head == content[slot * 32..(slot + 2) * 32]
    ensures |head| == 64 && head[0] == 0x85 && head[32] == 0xC0 && StreamOf(head) == rec.entry.stream
            && Le16(head, 4) == rec.entry.attributes
    ensures ContentOk(count, cb, rec.entry.stream)
  {
    var bytes := SetBytes(content, slot, rec.size);
    SetStart(count, cb, up, content, slot, rec, head);
    hide *;
    GoodParts(count, cb, up, bytes, rec.entry);
    SameStreamFields(bytes, head);
    Le16Same(bytes, head, 4);
  }

  /** The first two entries of a set, as bytes. */
  lemma SetStart(count: nat, cb: nat, up: Upcase, content: seq<byte>, slot: nat, rec: Rec, head: seq<byte>)
    requires cb > 0 && SetAt(count, cb, up, content, slot, rec) && (slot + 2) * 32 <= |content|
    requires head == content[slot * 32..(slot + 2) * 32]
    ensures var bytes := SetBytes(content, slot, rec.size);
            && |bytes| >= 96 && |bytes| % ENTRY_BYTES == 0 && ParseSet(count, cb, up, bytes) == Good(rec.entry)
            && |head| == 64 && head[0] == 0x85 && forall i :: 0 <= i < 64 ==> bytes[i] == head[i]
  {
    hide ParseSet;
  }

  lemma DirNames(count: nat, cb: nat, up: Upcase, content: seq<byte>, ents: map<nat, Rec>)
    requires cb > 0 && DirOk(count, cb, up, content, ents)
    ensures forall q :: q in ents ==> 1 <= |ents[q].entry.name| <= 255
  {
    forall q | q in ents ensures 1 <= |ents[q].entry.name| <= 255 {
      SetOf(count, cb, up, content, ents, q);
      hide DirOk, SetAt, WellShaped, NameOf, StreamOf, ContentOk, NameHash;
    }
  }
}
