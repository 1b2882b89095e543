/** kernel/io/block_cache.cpp: a write-back block cache over a device that may fail at
    any call.

    A failed device write may leave anything in the range it was asked to write; a
    failed device read may leave anything in the buffer it was given. */
module BlockCache {
  import opened Common

  const SIZE_MAX: nat := 0xFFFF_FFFF_FFFF_FFFF

  datatype Access = Read | Overwrite

  datatype Entry = Entry(block: nat, lastUsed: nat, data: seq<byte>, pins: nat, valid: bool, dirty: bool)

  /** Bytes `at .. at + n` of the disk. */
  function Slice(disk: seq<byte>, at: nat, n: nat): (r: seq<byte>)
    requires at + n <= |disk|
    ensures |r| == n
  {
    disk[at..at + n]
  }

  /** The disk with `bytes` at `at`. */
  function Patch(disk: seq<byte>, at: nat, bytes: seq<byte>): (r: seq<byte>)
    requires at + |bytes| <= |disk|
    ensures |r| == |disk| && Slice(r, at, |bytes|) == bytes
  {
    disk[..at] + bytes + disk[at + |bytes|..]
  }

  lemma PatchApart(disk: seq<byte>, at: nat, bytes: seq<byte>, other: nat, n: nat)
    requires at + |bytes| <= |disk| && other + n <= |disk| && (other + n <= at || at + |bytes| <= other)
    ensures Slice(Patch(disk, at, bytes), other, n) == Slice(disk, other, n)
  {
  }

  /** Distinct blocks lie apart, and every block within the disk. */
  lemma BlocksApart(a: nat, b: nat, bytes: nat)
    ensures a < b ==> a * bytes + bytes <= b * bytes
  {
    if a < b { MulMono(a + 1, b, bytes); }
  }

  /** Device blocks `block * span ..` start where cache block `block` starts. */
  lemma DeviceOffset(block: nat, span: nat, deviceBytes: nat)
    ensures block * span * deviceBytes == block * (span * deviceBytes)
  {
  }

  // ------------------------------------------------------------- the invariant

  /** Each block is cached at most once, buffers have the block size, and a pinned
      buffer is in use. */
  ghost predicate EntriesOk(entries: seq<Entry>, bytes: nat, blocks: nat) {
    && (forall i :: 0 <= i < |entries| ==>
        |entries[i].data| == bytes && (entries[i].valid ==> entries[i].block < blocks)
        && (entries[i].pins > 0 ==> entries[i].valid))
    && (forall i, j :: 0 <= i < j < |entries| && entries[i].valid && entries[j].valid ==>
        entries[i].block != entries[j].block)
  }

  ghost predicate Holds(entries: seq<Entry>, i: int, b: nat) {
    0 <= i < |entries| && entries[i].valid && entries[i].block == b
  }

  ghost predicate Absent(entries: seq<Entry>, b: nat) {
    forall i :: 0 <= i < |entries| ==> !Holds(entries, i, b)
  }

  /** The device holds `data` where block `b` lies. */
  ghost predicate Stored(disk: seq<byte>, bytes: nat, b: nat, data: seq<byte>) {
    b * bytes + bytes <= |disk| && data == Slice(disk, b * bytes, bytes)
  }

  /** What the cache must agree with: the cached data of a block if there is any, and
      else what the device holds. */
  ghost predicate Views(entries: seq<Entry>, disk: seq<byte>, bytes: nat, view: seq<seq<byte>>) {
    && |view| * bytes <= |disk|
    && (forall i :: 0 <= i < |entries| && entries[i].valid ==>
        entries[i].block < |view| && view[entries[i].block] == entries[i].data)
    && (forall b :: 0 <= b < |view| && Absent(entries, b) ==> Stored(disk, bytes, b, view[b]))
  }

  /** A clean entry nobody is editing equals the device. */
  ghost predicate Cleans(entries: seq<Entry>, disk: seq<byte>, bytes: nat, edited: set<nat>) {
    && (forall i :: i in edited ==> i < |entries| && entries[i].pins > 0)
    && (forall i :: 0 <= i < |entries| && entries[i].valid && !entries[i].dirty && i !in edited ==>
          Stored(disk, bytes, entries[i].block, entries[i].data))
  }

  /** The view is determined by the cache and the device. */
  lemma ViewDetermined(entries: seq<Entry>, disk: seq<byte>, bytes: nat, v: seq<seq<byte>>, w: seq<seq<byte>>)
    requires Views(entries, disk, bytes, v) && Views(entries, disk, bytes, w) && |v| == |w|
    ensures v == w
  {
    forall b | 0 <= b < |v| ensures v[b] == w[b] {
      if !Absent(entries, b) {
        var i :| 0 <= i < |entries| && Holds(entries, i, b);
      }
    }
  }

  // -------------------------------------------------------- what each step keeps

  /** Everything that holds between steps. */
  ghost predicate Agrees(entries: seq<Entry>, disk: seq<byte>, bytes: nat, view: seq<seq<byte>>, edited: set<nat>) {
    EntriesOk(entries, bytes, |view|) && Views(entries, disk, bytes, view) && Cleans(entries, disk, bytes, edited)
  }

  lemma BlockInside(view: seq<seq<byte>>, disk: seq<byte>, bytes: nat, b: nat)
    requires |view| * bytes <= |disk| && b < |view|
    ensures b * bytes + bytes <= |disk|
  {
    MulMono(b + 1, |view|, bytes);
  }

  /** The disk changed within one cached block's range. */
  lemma RangeWritten(entries: seq<Entry>, disk: seq<byte>, bytes: nat, view: seq<seq<byte>>, edited: set<nat>, i: nat,
                     bits: seq<byte>)
    requires Agrees(entries, disk, bytes, view, edited) && i < |entries| && entries[i].valid && |bits| == bytes
    ensures entries[i].block * bytes + bytes <= |disk|
    ensures var disk' := Patch(disk, entries[i].block * bytes, bits);
            && Views(entries, disk', bytes, view)
            && (forall j :: 0 <= j < |entries| && j != i && entries[j].valid && !entries[j].dirty && j !in edited ==>
                  Stored(disk', bytes, entries[j].block, entries[j].data))
  {
    var b := entries[i].block;
    BlockInside(view, disk, bytes, b);
    var disk' := Patch(disk, b * bytes, bits);
    forall c, bits0 | 0 <= c < |view| && c != b && Stored(disk, bytes, c, bits0)
           ensures Stored(disk', bytes, c, bits0) {
      BlockInside(view, disk, bytes, c);
      BlocksApart(c, b, bytes);
      BlocksApart(b, c, bytes);
      PatchApart(disk, b * bytes, bits, c * bytes, bytes);
    }
    assert Holds(entries, i, b);
    hide Slice, Patch, Stored;
    forall j | 0 <= j < |entries| && j != i && entries[j].valid ensures entries[j].block != b {
    }
  }

  /** A successful write-back. */
  lemma WrittenBack(entries: seq<Entry>, disk: seq<byte>, bytes: nat, view: seq<seq<byte>>, edited: set<nat>, i: nat)
    requires Agrees(entries, disk, bytes, view, edited) && i < |entries| && entries[i].valid
    ensures entries[i].block * bytes + bytes <= |disk|
    ensures Agrees(entries[i := entries[i].(dirty := false)], Patch(disk, entries[i].block * bytes, entries[i].data),
                   bytes, view, edited - {i})
  {
    RangeWritten(entries, disk, bytes, view, edited, i, entries[i].data);
    var after, disk' :=
                        entries[i := entries[i].(dirty := false)],
                        Patch(disk, entries[i].block * bytes, entries[i].data);
    assert Stored(disk', bytes, entries[i].block, entries[i].data);
    hide Slice, Patch, Stored;
    forall b | 0 <= b < |view| && Absent(after, b) ensures Absent(entries, b) {
      forall j | 0 <= j < |entries| ensures !Holds(entries, j, b) {
        assert !Holds(after, j, b);
      }
    }
  }

  /** A failed write-back of a dirty entry: the block is still valid and dirty. */
  lemma NotWrittenBack(entries: seq<Entry>, disk: seq<byte>, bytes: nat, view: seq<seq<byte>>, edited: set<nat>, i: nat,
                       junk: seq<byte>)
    requires Agrees(entries, disk, bytes, view, edited) && i < |entries| && entries[i].valid && entries[i].dirty
             && |junk| == bytes
    ensures entries[i].block * bytes + bytes <= |disk|
    ensures Agrees(entries, Patch(disk, entries[i].block * bytes, junk), bytes, view, edited)
  {
    RangeWritten(entries, disk, bytes, view, edited, i, junk);
    hide Slice, Patch, Stored;
  }

  /** An unpinned clean entry given up for another block, its buffer now anything. */
  lemma Evicted(entries: seq<Entry>, disk: seq<byte>, bytes: nat, view: seq<seq<byte>>, edited: set<nat>, i: nat,
                block: nat, junk: seq<byte>)
    requires Agrees(entries, disk, bytes, view, edited) && i < |entries| && entries[i].pins == 0 && |junk| == bytes
    requires entries[i].valid ==> !entries[i].dirty
    ensures Agrees(entries[i := entries[i].(valid := false, block := block, data := junk)], disk, bytes, view, edited)
  {
    var after := entries[i := entries[i].(valid := false, block := block, data := junk)];
    hide Slice, Stored;
    assert i !in edited;
    forall b | 0 <= b < |view| && Absent(after, b) ensures Stored(disk, bytes, b, view[b]) {
      if !Holds(entries, i, b) {
        forall j | 0 <= j < |entries| ensures !Holds(entries, j, b) {
          assert !Holds(after, j, b);
        }
      }
    }
  }

  /** A free entry filled for an absent block, with the device's content or with
      content that is to be written back. */
  lemma Filled(entries: seq<Entry>, disk: seq<byte>, bytes: nat, view: seq<seq<byte>>, edited: set<nat>, i: nat,
               e: Entry)
    requires Agrees(entries, disk, bytes, view, edited) && i < |entries| && !entries[i].valid
    requires e.valid && e.block < |view| && Absent(entries, e.block) && |e.data| == bytes
    requires e.dirty || (e.data == view[e.block] && Stored(disk, bytes, e.block, e.data))
    ensures Agrees(entries[i := e], disk, bytes, view[e.block := e.data], edited)
  {
    var after := entries[i := e];
    hide Slice, Stored;
    assert i !in edited;
    forall b | 0 <= b < |view| && Absent(after, b) ensures b != e.block && Absent(entries, b) {
      assert !Holds(after, i, b);
      forall j | 0 <= j < |entries| ensures !Holds(entries, j, b) {
        assert !Holds(after, j, b);
      }
    }
    forall j | 0 <= j < |entries| && j != i && entries[j].valid ensures entries[j].block != e.block {
      assert !Holds(entries, j, e.block);
    }
  }

  /** A cached block's content replaced, by an edit or an overwrite. */
  lemma Replaced(entries: seq<Entry>, disk: seq<byte>, bytes: nat, view: seq<seq<byte>>, edited: set<nat>, i: nat,
                 e: Entry, more: set<nat>)
    requires Agrees(entries, disk, bytes, view, edited) && i < |entries| && entries[i].valid
    requires e.valid && e.block == entries[i].block && |e.data| == bytes
    requires more <= {i} && (more == {i} ==> e.pins > 0) && (i in edited ==> e.pins > 0 || i !in more) 
    requires (e.pins == 0 ==> i !in edited)
             && (!e.dirty && i !in edited + more ==> !entries[i].dirty && e.data == entries[i].data)
    ensures Agrees(entries[i := e], disk, bytes, view[e.block := e.data], edited + more)
  {
    var after := entries[i := e];
    hide Slice, Stored;
    forall b | 0 <= b < |view| && Absent(after, b) ensures b != e.block && Absent(entries, b) {
      assert !Holds(after, i, b);
      forall j | 0 <= j < |entries| ensures !Holds(entries, j, b) {
        assert !Holds(after, j, b);
      }
    }
  }

  /** With nothing dirty and nothing being edited, the device holds the view. */
  lemma Flushed(entries: seq<Entry>, disk: seq<byte>, bytes: nat, view: seq<seq<byte>>, edited: set<nat>, b: nat)
    requires Agrees(entries, disk, bytes, view, edited) && edited == {} && b < |view|
    requires forall i :: 0 <= i < |entries| && entries[i].valid ==> !entries[i].dirty
    ensures Stored(disk, bytes, b, view[b])
  {
    hide Stored;
    if !Absent(entries, b) {
      var i :| 0 <= i < |entries| && Holds(entries, i, b);
    }
  }

  /** `sync` so far: entries before `i` may have become clean, the rest are as they were. */
  ghost predicate Synced(before: seq<Entry>, after: seq<Entry>, i: nat) {
    && |after| == |before|
    && (forall j :: 0 <= j < |after| ==>
        after[j] == before[j] || (after[j] == before[j].(dirty := false) && before[j].valid))
    && (forall j :: i <= j < |after| ==> after[j] == before[j])
  }

  ghost predicate CleanUpto(entries: seq<Entry>, i: nat)
  {
    forall j :: 0 <= j < i && j < |entries| ==> !(entries[j].valid && entries[j].dirty)
  }

  lemma SyncStart(entries: seq<Entry>)
    ensures Synced(entries, entries, 0) && CleanUpto(entries, 0)
  {
  }

  lemma SyncStep(first: seq<Entry>, before: seq<Entry>, after: seq<Entry>, i: nat)
    requires i < |before| && Synced(first, before, i)
    requires after == before || (before[i].valid && after == before[i := before[i].(dirty := false)])
    ensures Synced(first, after, i + 1)
    ensures CleanUpto(after, i + 1) <==> CleanUpto(before, i) && !(after[i].valid && after[i].dirty)
  {
  }

  lemma SyncEnd(before: seq<Entry>, after: seq<Entry>)
    requires Synced(before, after, |after|)
    ensures |after| == |before|
    ensures forall i :: 0 <= i < |after| ==>
            after[i] == before[i] || (after[i] == before[i].(dirty := false) && before[i].valid)
    ensures CleanUpto(after, |after|) <==> forall i :: 0 <= i < |after| ==> !(after[i].valid && after[i].dirty)
  {
  }

  /** Some buffer is held by nobody. */
  ghost predicate Spare(entries: seq<Entry>) { exists i :: 0 <= i < |entries| && entries[i].pins == 0 }

  class Cache {
    const deviceBytes: nat
    const deviceCount: nat
    var disk: seq<byte>
    var entries: seq<Entry>
    var bytes: nat
    var span: nat
    var clock: nat
    var hits: nat
    var misses: nat
    /** The plain block array the cache stands for. */
    ghost var view: seq<seq<byte>>
    /** Buffers changed in place by a holder who has yet to release them. */
    ghost var edited: set<nat>
    /** Device transfers that have failed so far. */
    ghost var faults: nat

    constructor (deviceBytes: nat, deviceCount: nat, disk: seq<byte>)
      requires deviceBytes > 0 && |disk| == deviceCount * deviceBytes
      ensures Valid() && !Ready() && this.disk == disk
    {
      this.deviceBytes, this.deviceCount, this.disk := deviceBytes, deviceCount, disk;
      entries, bytes, span, clock, hits, misses := [], 0, 0, 0, 0, 0;
      view, edited := [], {};
    }

    predicate Ready()
      reads `entries
    {
      entries != []
    }

    ghost predicate Valid()
      reads `disk, `entries, `bytes, `span, `clock, `view, `edited
    {
      && deviceBytes > 0 && |disk| == deviceCount * deviceBytes
      && (entries == [] ==> edited == {})
      && (entries != [] ==>
            && span > 0 && bytes == span * deviceBytes && |view| == deviceCount / span
            && Agrees(entries, disk, bytes, view, edited)
            && forall i :: 0 <= i < |entries| ==> entries[i].lastUsed <= clock)
    }

    function BlockCount(): nat
      reads `entries, `span
    {
      if entries == [] || span == 0 then 0 else deviceCount / span
    }

    /** The view of a block is its cached data, of which there is one copy at most, and
        else what the device holds; an entry neither dirty nor being edited agrees with
        the device. */
    lemma ViewIs(b: nat, i: nat)
      requires Valid() && Ready() && b < |view| && i < |entries|
      ensures Absent(entries, b) ==> Stored(disk, bytes, b, view[b])
      ensures Holds(entries, i, b) ==> view[b] == entries[i].data && forall j :: Holds(entries, j, b) ==> j == i
      ensures Holds(entries, i, b) && !entries[i].dirty && i !in edited ==> Stored(disk, bytes, b, view[b])
      ensures i in edited ==> entries[i].pins > 0
    {
      hide Stored;
    }

    // ---------------------------------------------------------------- the device

    /** Whatever a failed transfer left behind. */
    method Junk(n: nat) returns (junk: seq<byte>)
      ensures |junk| == n
    {
      junk := *;
      if |junk| != n { junk := Zeros(n); }
    }

    /** The device's verdict on a transfer. */
    method Outcome() returns (error: Error)
      modifies `faults
      ensures faults == old(faults) + if error == NoError then 0 else 1
    {
      error := *;
      if error != NoError { faults := faults + 1; }
    }

    method DeviceRead(first: nat, n: nat) returns (data: seq<byte>, error: Error)
      requires first * deviceBytes + n * deviceBytes <= |disk|
      modifies `faults
      ensures faults == old(faults) + if error == NoError then 0 else 1
      ensures |data| == n * deviceBytes
      ensures error == NoError ==> data == Slice(disk, first * deviceBytes, n * deviceBytes)
    {
      error := Outcome();
      if error == NoError { return disk[first * deviceBytes..first * deviceBytes + n * deviceBytes], error; }
      data := Junk(n * deviceBytes);
    }

    method DeviceWrite(first: nat, data: seq<byte>) returns (error: Error, ghost left: seq<byte>)
      requires first * deviceBytes + |data| <= |disk|
      modifies `disk, `faults
      ensures faults == old(faults) + if error == NoError then 0 else 1
      ensures |left| == |data| && disk == Patch(old(disk), first * deviceBytes, left)
              && (error == NoError ==> left == data)
    {
      error := Outcome();
      var junk := data;
      if error != NoError { junk := Junk(|data|); }
      left := junk;
      disk := disk[..first * deviceBytes] + junk + disk[first * deviceBytes + |junk|..];
    }

    // --------------------------------------------------------------- the entries

    /** `find`. */
    method Find(block: nat) returns (found: Option<nat>)
      requires Valid() && Ready()
      ensures found.Some? ==> Holds(entries, found.value, block)
      ensures found.None? ==> Absent(entries, block)
    {
      for i := 0 to |entries|
        invariant forall j :: 0 <= j < i ==> !Holds(entries, j, block)
      {
        if entries[i].valid && entries[i].block == block { return Some(i); }
      }
      return None;
    }

    /** `victim`: the first empty unpinned entry if there is one, else the unpinned one
        unused the longest, the first of several. */
    method Victim() returns (found: Option<nat>)
      ensures found.None? <==> forall i :: 0 <= i < |entries| ==> entries[i].pins != 0
      ensures found.Some? ==> found.value < |entries| && entries[found.value].pins == 0
      ensures found.Some? && entries[found.value].valid ==>
                forall i :: 0 <= i < |entries| && entries[i].pins == 0 ==>
                       entries[i].valid && entries[found.value].lastUsed <= entries[i].lastUsed
      ensures found.Some? ==>
                forall i :: 0 <= i < found.value && entries[i].pins == 0 ==>
                  entries[i].valid
                    && (entries[found.value].valid ==> entries[found.value].lastUsed < entries[i].lastUsed)
    {
      found := None;
      for i := 0 to |entries|
        invariant found.None? <==> forall j :: 0 <= j < i ==> entries[j].pins != 0
        invariant found.Some? ==> found.value < i && entries[found.value].pins == 0 && entries[found.value].valid
        invariant found.Some? ==>
                    forall j :: 0 <= j < i && entries[j].pins == 0 ==>
                           entries[j].valid && entries[found.value].lastUsed <= entries[j].lastUsed
        invariant found.Some? ==>
                    forall j :: 0 <= j < found.value && entries[j].pins == 0 ==>
                           entries[found.value].lastUsed < entries[j].lastUsed
      {
        if entries[i].pins == 0 {
          if !entries[i].valid { return Some(i); }
          if found.None? || entries[i].lastUsed < entries[found.value].lastUsed { found := Some(i); }
        }
      }
    }

    /** `write_back`: on success the block is clean; on failure it is as valid and dirty
        as before, whatever the device did with its range. */
    method WriteBack(i: nat) returns (error: Error)
      requires i < |entries| && entries[i].valid && entries[i].dirty && Valid()
      modifies `disk, `entries, `edited, `faults
      ensures faults == old(faults) + if error == NoError then 0 else 1
      ensures Valid() && i < |old(entries)|
      ensures error == NoError ==>
              entries == old(entries)[i := old(entries)[i].(dirty := false)] && edited == old(edited) - {i}
      ensures error != NoError ==> entries == old(entries) && edited == old(edited)
    {
      var e := entries[i];
      BlockInside(view, disk, bytes, e.block);
      DeviceOffset(e.block, span, deviceBytes);
      ghost var left;
      error, left := DeviceWrite(e.block * span, e.data);
      if error == NoError {
        WrittenBack(entries, old(disk), bytes, view, edited, i);
        entries := entries[i := e.(dirty := false)];
        edited := edited - {i};
      } else {
        NotWrittenBack(entries, old(disk), bytes, view, edited, i, left);
      }
      hide Agrees;
    }

    /** The miss path of `acquire`: a victim, written back if dirty, takes the block. */
    method Load(block: nat, access: Access) returns (found: Option<nat>, error: Error)
      requires Ready() && block < |view| && Absent(entries, block) && Valid()
      modifies `disk, `entries, `edited, `faults
      ensures Valid() && Ready() && |entries| == |old(entries)| && edited == old(edited)
      ensures found.Some? <==> error == NoError
      ensures faults >= old(faults) && (Spare(old(entries)) && faults == old(faults) ==> error == NoError)
      ensures found.Some? ==>
              found.value < |entries| && entries[found.value].pins == 0 && Loaded(entries, found.value, block, access)
      ensures PinsHeld(old(entries), entries)
    {
      hide *;
      ReadyIs();
      var victim := Victim();
      SpareIs(entries);
      if victim.None? { SamePins(entries); return None, DeviceError; }
      var i := victim.value;
      error := Evict(i, block);
      ReadyIs();
      if error != NoError { return None, error; }
      ghost var middle := entries;
      found, error := Fetch(i, block, access);
      ReadyIs();
      PinsTwice(old(entries), middle, entries);
    }

    /** The victim's content goes back to the device and its entry becomes empty. */
    method Evict(i: nat, block: nat) returns (error: Error)
      requires i < |entries| && entries[i].pins == 0 && block < |view| && Absent(entries, block) && Valid()
      modifies `disk, `entries, `edited, `faults
      ensures faults == old(faults) + if error == NoError then 0 else 1
      ensures Valid() && |entries| == |old(entries)| && edited == old(edited) && PinsHeld(old(entries), entries)
      ensures error == NoError ==>
              !entries[i].valid && entries[i].pins == 0 && entries[i].block == block && Absent(entries, block)
    {
      hide *;
      Parts();
      NotEdited(i);
      SamePins(entries);
      error := NoError;
      if entries[i].valid && entries[i].dirty {
        error := WriteBack(i);
        OnePinless(old(entries), entries, i);
        if error != NoError { return; }
      }
      Parts();
      NotEdited(i);
      StillAbsent(old(entries), entries, i, block);
      AgreesData(entries, disk, bytes, view, edited, i);
      Evicted(entries, disk, bytes, view, edited, i, block, entries[i].data);
      ghost var middle := entries;
      entries := entries[i := entries[i].(valid := false, block := block)];
      GoneAbsent(old(entries), entries, i, block);
      OnePinless(old(entries), entries, i);
      Make();
    }

    /** The empty entry is filled from the device, or left for the caller to fill. */
    method Fetch(i: nat, block: nat, access: Access) returns (found: Option<nat>, error: Error)
      requires i < |entries| && !entries[i].valid && entries[i].pins == 0 && entries[i].block == block && block < |view|
               && Absent(entries, block) && Valid()
      modifies `entries, `faults
      ensures faults == old(faults) + if error == NoError then 0 else 1
      ensures Valid() && |entries| == |old(entries)| && PinsHeld(old(entries), entries)
      ensures found.Some? <==> error == NoError
      ensures found.Some? ==> found.value == i && entries[i].pins == 0 && Loaded(entries, i, block, access)
    {
      hide *;
      Parts();
      if access == Read {
        BlockInside(view, disk, bytes, block);
        DeviceOffset(block, span, deviceBytes);
        var data;
        data, error := DeviceRead(block * span, span);
        if error != NoError {
          Rebuffered(entries, disk, bytes, view, edited, i, data);
          entries := entries[i := entries[i].(data := data)];
          OnePinless(old(entries), entries, i);
          Make();
          return None, error;
        }
        LoadedIs(entries, disk, bytes, view, edited, block, data);
        Filled(entries, disk, bytes, view, edited, i, entries[i].(valid := true, dirty := false, data := data));
        assert view[block := view[block]] == view;
        entries := entries[i := entries[i].(valid := true, dirty := false, data := data)];
      } else {
        Cleaned(entries, disk, bytes, view, edited, i);
        entries := entries[i := entries[i].(dirty := false)];
        GoneAbsent(old(entries), entries, i, block);
      }
      OnePinless(old(entries), entries, i);
      LoadedMake(entries, i, block, access);
      Make();
      return Some(i), NoError;
    }

    /** `acquire`: the block's buffer, pinned.  Reading leaves the view alone; taking the
        block to overwrite it makes it zeros; failing, for whatever reason, changes
        nothing a caller can see.  Buffers others hold stay theirs. */
    method Acquire(block: nat, access: Access) returns (found: Option<nat>, error: Error)
      requires Valid()
      modifies `disk, `entries, `edited, `view, `clock, `hits, `misses, `faults
      ensures Valid() && |entries| == |old(entries)| && edited == old(edited)
      ensures faults >= old(faults)
              && (old(Ready()) && block < |old(view)| && Spare(old(entries)) && faults == old(faults) ==>
                  error == NoError)
      ensures found.Some? <==> error == NoError
      ensures !old(Ready()) ==> error == DeviceError
      ensures old(Ready()) && block >= |old(view)| ==> error == OutOfRange
      ensures old(Ready()) && !Absent(old(entries), block) && block < |old(view)| ==> error == NoError
      ensures found.None? ==> view == old(view) && PinsHeld(old(entries), entries)
      ensures found.Some? ==>
                && old(Ready()) && block < |old(view)|
                && view == (if access == Read then old(view) else old(view)[block := Zeros(bytes)])
                && Held(entries, view, found.value, block) && PinnedMore(old(entries), entries, found.value, access)
    {
      hide *;
      ReadyIs();
      SamePins(entries);
      if !Ready() { return None, DeviceError; }
      Parts();
      CountIs();
      if block >= BlockCount() { return None, OutOfRange; }
      found := Find(block);
      error := NoError;
      ghost var before := entries;
      if found.Some? {
        hits := hits + 1;
      } else {
        misses := misses + 1;
        found, error := Load(block, access);
        if found.None? {
          return;
        }
        LoadedHolds(entries, found.value, block, access);
        PinlessBefore(before, entries, found.value);
      }
      HeldIndex(entries, found.value, block, access);
      Take(found.value, block, access, before);
    }

    /** The end of `acquire`: the overwrite, the pin and the clock. */
    method Take(i: nat, block: nat, access: Access, ghost before: seq<Entry>)
      requires i < |entries| && block < |view| && PinsHeld(before, entries)
      requires Holds(entries, i, block) || (access == Overwrite && Loaded(entries, i, block, access))
      requires before[i].pins == entries[i].pins
      requires Valid()
      modifies `entries, `view, `clock
      ensures Valid() && |entries| == |old(entries)|
      ensures view == if access == Read then old(view) else old(view)[block := Zeros(bytes)]
      ensures Held(entries, view, i, block) && PinnedMore(before, entries, i, access)
    {
      hide *;
      Parts();
      var e := entries[i];
      e := e.(valid := true);
      if access == Overwrite { e := e.(data := Zeros(bytes), dirty := true); }
      clock := clock + 1;
      e := e.(pins := e.pins + 1, lastUsed := clock);
      TakeAgrees(entries, disk, bytes, view, edited, i, block, access, e);
      view := view[block := e.data];
      entries := entries[i := e];
      TakePins(before, old(entries), entries, view, i, block, access);
      Make();
    }

    /** What a holder does with an acquired buffer: the view of that block changes with
        it, at once. */
    method Edit(i: nat, data: seq<byte>)
      requires i < |entries| && entries[i].pins > 0 && |data| == bytes && Valid()
      modifies `entries, `view, `edited
      ensures Valid() && i < |old(entries)| && old(entries)[i].block < |old(view)|
      ensures entries == old(entries)[i := old(entries)[i].(data := data)]
              && view == old(view)[old(entries)[i].block := data]
      ensures edited == old(edited) + {i}
    {
      hide *;
      Parts();
      AgreesData(entries, disk, bytes, view, edited, i);
      var e := entries[i].(data := data);
      Replaced(entries, disk, bytes, view, edited, i, e, {i});
      view := view[e.block := data];
      entries := entries[i := e];
      edited := edited + {i};
      Make();
    }

    /** `release`.  A holder who edited the buffer and is the last to let go says so,
        unless the block is to be written back anyway. */
    method Release(i: nat, dirty: bool)
      requires i in edited && i < |entries| && entries[i].pins == 1 ==> dirty || entries[i].dirty
      requires Valid()
      modifies `entries, `edited
      ensures Valid() && |entries| == |old(entries)|
              && (forall j :: 0 <= j < |entries| && j != i ==> entries[j] == old(entries)[j])
      ensures i < |entries| && old(entries)[i].pins > 0 ==>
                entries[i] == old(entries)[i].(pins := old(entries)[i].pins - 1, dirty := old(entries)[i].dirty
                                               || dirty)
      ensures i < |entries| && old(entries)[i].pins == 0 ==> entries[i] == old(entries)[i]
      ensures edited == if i < |entries| && old(entries)[i].pins > 0 && (dirty || old(entries)[i].dirty)
              then old(edited) - {i} else old(edited)
    {
      hide *;
      if i >= |entries| || entries[i].pins == 0 { return; }
      Parts();
      AgreesData(entries, disk, bytes, view, edited, i);
      var e := entries[i].(pins := entries[i].pins - 1);
      if dirty { e := e.(dirty := true); }
      Unpinned(entries, disk, bytes, view, edited, i, e);
      if e.dirty { edited := edited - {i}; }
      entries := entries[i := e];
      Make();
    }

    /** One block read through the cache. */
    method ReadOne(block: nat) returns (data: seq<byte>, error: Error)
      requires Ready() && block < |view| && Valid()
      modifies `disk, `entries, `edited, `view, `clock, `hits, `misses, `faults
      ensures Valid() && Ready() && view == old(view) && BuffersKept(old(entries), entries)
      ensures faults >= old(faults)
              && (Spare(old(entries)) ==> Spare(entries) && (faults == old(faults) ==> error == NoError))
      ensures error == NoError ==> block < |view| && data == view[block]
    {
      hide *;
      ReadyIs();
      data := [];
      ghost var before, edits := entries, edited;
      EditedPinned();
      var found;
      found, error := Acquire(block, Read);
      if found.None? {
        ReadyIs();
        KeptIdle(before, entries);
        SpareKept(before, entries);
        return;
      }
      var i := found.value;
      HeldIs(entries, view, i, block);
      PinnedIs(before, entries, i, Read);
      data := entries[i].data;
      ghost var middle := entries;
      Release(i, false);
      ReadyIs();
      KeptAfter(before, middle, entries, i);
      SpareKept(before, entries);
    }

    /** `read_blocks`: the view, up to the first block that could not be had. */
    method ReadBlocks(first: nat, count: nat) returns (out: seq<byte>, error: Error, ghost done: nat)
      requires Valid()
      modifies `disk, `entries, `edited, `view, `clock, `hits, `misses, `faults
      ensures Valid() && view == old(view) && BuffersKept(old(entries), entries)
      ensures
        && old(Ready()) && first + count <= |view| && count <= SIZE_MAX / Max(bytes)
        && Spare(old(entries)) && faults == old(faults)
        ==> error == NoError
      ensures !old(Ready()) ==> error == DeviceError && out == []
      ensures old(Ready()) && (first + count > |view| || count > SIZE_MAX / Max(bytes)) ==>
              error == OutOfRange && out == []
      ensures done <= count
              && (out != [] || done > 0 ==> first + done <= |view| && out == Joined(view[first..first + done]))
      ensures error == NoError ==> done == count && first + count <= |view| && out == Joined(view[first..first + count])
    {
      hide *;
      out, done := [], 0;
      ReadyIs();
      KeptNow(entries);
      if !Ready() { return out, DeviceError, done; }
      Parts();
      CountIs();
      BytesUp(span, deviceBytes);
      if first > BlockCount() || count > BlockCount() - first
         || count > SIZE_MAX / bytes { return out, OutOfRange, done; }
      JoinedEmpty();
      var i := 0;
      assert view[first..first] == [];
      while i < count
        invariant 0 <= i <= count && first + count <= |view| && view == old(view) && Valid() && Ready()
                  && bytes == old(bytes)
        invariant faults >= old(faults) && (Spare(old(entries)) ==> Spare(entries))
        invariant BuffersKept(old(entries), entries) && done == i && out == Joined(view[first..first + i])
      {
        ghost var before := entries;
        var data;
        data, error := ReadOne(first + i);
        KeptTwice(old(entries), before, entries);
        if error != NoError { return; }
        JoinedMore(view[first..first + i], data);
        assert view[first..first + i] + [data] == view[first..first + (i + 1)];
        out := out + data;
        i := i + 1;
        done := i;
      }
      return out, NoError, done;
    }

    /** One block replaced through the cache: taken to be overwritten, filled, released
        as dirty. */
    method WriteOne(block: nat, data: seq<byte>) returns (error: Error)
      requires Ready() && block < |view| && |data| == bytes && Valid()
      modifies `disk, `entries, `edited, `view, `clock, `hits, `misses, `faults
      ensures Valid() && Ready() && block < |old(view)|
      ensures faults >= old(faults)
              && (Spare(old(entries)) ==> Spare(entries) && (faults == old(faults) ==> error == NoError))
      ensures view == if error == NoError then old(view)[block := data] else old(view)
      ensures if error == NoError then BuffersBut(old(entries), entries, block, 1)
              else BuffersKept(old(entries), entries)
    {
      hide *;
      ReadyIs();
      EditedPinned();
      ghost var before, view0 := entries, view;
      var found;
      found, error := Acquire(block, Overwrite);
      if found.None? {
        ReadyIs();
        KeptIdle(before, entries);
        SpareKept(before, entries);
        return;
      }
      var i := found.value;
      HeldIs(entries, view, i, block);
      PinnedIs(before, entries, i, Overwrite);
      ghost var middle := entries;
      Edit(i, data);
      ghost var filled := entries;
      Release(i, true);
      ReadyIs();
      assert view0[block := Zeros(bytes)][block := data] == view0[block := data];
      ButAfter(before, middle, entries, i, block);
      SpareBut(before, entries, block, 1);
    }

    /** `write_blocks`: when it fails after some blocks, exactly those have changed. */
    method WriteBlocks(first: nat, count: nat, buffer: seq<byte>) returns (error: Error, done: nat)
      requires Ready() ==> |buffer| == count * bytes
      requires Valid()
      modifies `disk, `entries, `edited, `view, `clock, `hits, `misses, `faults
      ensures Valid() && done <= count && |view| == |old(view)|
      ensures
        && old(Ready()) && first + count <= |view| && count <= SIZE_MAX / Max(bytes)
        && Spare(old(entries)) && faults == old(faults)
        ==> error == NoError
      ensures !old(Ready()) ==> error == DeviceError && done == 0
      ensures old(Ready()) && (first + count > |view| || count > SIZE_MAX / Max(bytes)) ==>
              error == OutOfRange && done == 0
      ensures error == NoError ==> done == count
      ensures done > 0 ==> first + done <= |view| && done * bytes <= |buffer|
      ensures forall b :: 0 <= b < |view| ==> view[b] == if first <= b < first + done
              then Chunk(buffer, bytes, b - first) else old(view)[b]
      ensures BuffersBut(old(entries), entries, first, done)
    {
      hide *;
      done := 0;
      ReadyIs();
      ButNow(entries, first, 0);
      if !Ready() { return DeviceError, done; }
      Parts();
      CountIs();
      BytesUp(span, deviceBytes);
      if first > BlockCount() || count > BlockCount() - first || count > SIZE_MAX / bytes { return OutOfRange, done; }
      while done < count
        invariant 0 <= done <= count && first + count <= |view| && |view| == |old(view)| && Valid() && Ready()
                  && bytes == old(bytes) && |buffer| == count * bytes
        invariant done * bytes <= |buffer| && faults >= old(faults) && (Spare(old(entries)) ==> Spare(entries))
        invariant forall b :: 0 <= b < |view| ==> view[b] == if first <= b < first + done
                  then Chunk(buffer, bytes, b - first) else old(view)[b]
        invariant BuffersBut(old(entries), entries, first, done)
      {
        ghost var before := entries;
        MulMono(done + 1, count, bytes);
        ChunkIs(buffer, bytes, done);
        error := WriteOne(first + done, buffer[done * bytes..done * bytes + bytes]);
        if error != NoError { ButKept(old(entries), before, entries, first, done); return; }
        ButTwice(old(entries), before, entries, first, done);
        done := done + 1;
      }
      return NoError, done;
    }

    /** `sync`: every dirty block is tried; the view does not change, and a block whose
        write-back failed is still valid and dirty. */
    method Sync() returns (error: Error, written: nat)
      requires Valid()
      modifies `disk, `entries, `edited, `faults
      ensures Valid() && |entries| == |old(entries)| && edited <= old(edited)
      ensures error == NoError <==> faults == old(faults)
      ensures forall i :: 0 <= i < |entries| ==>
              entries[i] == old(entries)[i] || (entries[i] == old(entries)[i].(dirty := false) && old(entries)[i].valid)
      ensures error == NoError <==> forall i :: 0 <= i < |entries| ==> !(entries[i].valid && entries[i].dirty)
      ensures error == NoError && edited == {} ==> forall b :: 0 <= b < |view| && entries != [] ==>
              Stored(disk, bytes, b, view[b])
    {
      hide *;
      error, written := NoError, 0;
      SyncStart(entries);
      for i := 0 to |entries|
        invariant Valid() && |entries| == |old(entries)| && edited <= old(edited) && Synced(old(entries), entries, i)
        invariant error == NoError <==> CleanUpto(entries, i)
        invariant faults >= old(faults) && (error == NoError <==> faults == old(faults))
      {
        ghost var before := entries;
        if entries[i].valid && entries[i].dirty {
          var result := WriteBack(i);
          if result == NoError {
            written := written + bytes;
          } else if error == NoError {
            error := result;
          }
        }
        SyncStep(old(entries), before, entries, i);
      }
      SyncEnd(old(entries), entries);
      if error == NoError && edited == {} && entries != [] {
        Parts();
        forall b | 0 <= b < |view| ensures Stored(disk, bytes, b, view[b]) {
          Flushed(entries, disk, bytes, view, edited, b);
        }
      }
    }

    /** `shutdown`: nothing is dropped that has not reached the device. */
    method Shutdown() returns (error: Error)
      requires edited == {} && Valid()
      modifies `disk, `entries, `edited, `bytes, `span, `faults
      ensures error == NoError <==> faults == old(faults)
      ensures Valid() && (error == NoError ==> !Ready())
      ensures error == NoError && old(entries) != [] ==> forall b :: 0 <= b < |view| ==>
              Stored(disk, old(bytes), b, view[b])
      ensures error != NoError ==> Ready() && bytes == old(bytes) && span == old(span)
    {
      if !Ready() { return NoError; }
      hide Agrees, Stored;
      var written;
      error, written := Sync();
      if error != NoError { return; }
      entries, bytes, span := [], 0, 0;
    }

    /** `dirty_count`. */
    method DirtyCount() returns (n: nat)
      ensures n == |set i | 0 <= i < |entries| && entries[i].valid && entries[i].dirty|
    {
      n := 0;
      for i := 0 to |entries|
        invariant n == |set j | 0 <= j < i && entries[j].valid && entries[j].dirty|
      {
        ghost var before := set j | 0 <= j < i && entries[j].valid && entries[j].dirty;
        ghost var after := set j | 0 <= j < i + 1 && entries[j].valid && entries[j].dirty;
        if entries[i].valid && entries[i].dirty {
          assert after == before + {i};
          n := n + 1;
        } else {
          assert after == before;
        }
      }
    }

    /** `initialize`: `memory` says whether the heap had room for the buffers. */
    method Initialize(capacity: nat, blockBytes: nat, memory: bool) returns (ok: bool)
      requires Valid()
      modifies `entries, `bytes, `span, `clock, `hits, `misses, `view
      ensures Valid()
      ensures ok ==>
              |entries| == capacity > 0 && !old(Ready()) && bytes % deviceBytes == 0
              && bytes == (if blockBytes == 0 then deviceBytes else blockBytes)
      ensures ok ==> forall b :: 0 <= b < |view| ==> Stored(disk, bytes, b, view[b])
      ensures !ok ==> entries == old(entries) && view == old(view)
      ensures ok <==> !old(Ready()) && capacity > 0 && blockBytes % deviceBytes == 0 && memory
                      && capacity <= SIZE_MAX / Max(if blockBytes == 0 then deviceBytes else blockBytes)
                         && capacity <= SIZE_MAX / ENTRY_SIZE
    {
      if Ready() || capacity == 0 { return false; }
      if deviceBytes == 0 { return false; }
      var size := if blockBytes == 0 then deviceBytes else blockBytes;
      if size % deviceBytes != 0 { return false; }
      if capacity > SIZE_MAX / size || capacity > SIZE_MAX / ENTRY_SIZE { return false; }
      if !memory { return false; }
      Fresh(capacity, size);
      return true;
    }

    /** The state `initialize` sets up: every entry empty. */
    method Fresh(capacity: nat, size: nat)
      requires capacity > 0 && size > 0 && deviceBytes > 0 && size % deviceBytes == 0 && entries == [] && Valid()
      modifies `entries, `bytes, `span, `clock, `hits, `misses, `view
      ensures Valid() && |entries| == capacity && bytes == size
      ensures forall b :: 0 <= b < |view| ==> Stored(disk, bytes, b, view[b])
    {
      entries := seq(capacity, i => Entry(0, 0, Zeros(size), 0, false, false));
      bytes, span := size, size / deviceBytes;
      clock, hits, misses := 0, 0, 0;
      SpanUp(size, deviceBytes);
      WholeBlocks(deviceCount, size / deviceBytes, deviceBytes);
      view := DiskBlocks(disk, size, deviceCount / span);
      FreshAgrees(entries, disk, size, view);
      hide *;
      Make();
    }

    lemma EditedPinned()
      requires Valid()
      ensures forall i :: i in edited ==> i < |entries| && entries[i].pins > 0
      ensures forall i :: 0 <= i < |entries| && entries[i].pins > 0 ==> entries[i].valid
    {
    }

    lemma CountIs()
      requires Valid() && entries != []
      ensures BlockCount() == |view|
    {
    }

    lemma ReadyIs()
      ensures Ready() <==> entries != []
    {
    }

    lemma Parts()
      requires Valid() && entries != []
      ensures deviceBytes > 0 && |disk| == deviceCount * deviceBytes && span > 0 && bytes == span * deviceBytes
              && |view| == deviceCount / span
      ensures Agrees(entries, disk, bytes, view, edited) && |view| * bytes <= |disk|
      ensures forall i :: 0 <= i < |entries| ==> entries[i].lastUsed <= clock
    {
    }

    lemma Make()
      requires entries != [] && deviceBytes > 0 && |disk| == deviceCount * deviceBytes && span > 0
               && bytes == span * deviceBytes && |view| == deviceCount / span
      requires Agrees(entries, disk, bytes, view, edited)
      requires forall i :: 0 <= i < |entries| ==> entries[i].lastUsed <= clock
      ensures Valid()
    {
      hide Agrees;
    }

    lemma NotEdited(i: nat)
      requires Valid() && i < |entries| && entries[i].pins == 0
      ensures i !in edited
    {
    }
  }

  /** Every pinned buffer still belongs to the same block and holds the same bytes. */
  ghost predicate PinsHeld(before: seq<Entry>, after: seq<Entry>) {
    |after| == |before| && forall j :: 0 <= j < |before| ==>
      after[j].pins == before[j].pins && (before[j].pins > 0 ==> after[j] == before[j])
  }

  lemma SamePins(entries: seq<Entry>)
    ensures PinsHeld(entries, entries)
  {
  }

  lemma PinsTwice(a: seq<Entry>, b: seq<Entry>, c: seq<Entry>)
    requires PinsHeld(a, b) && PinsHeld(b, c)
    ensures PinsHeld(a, c)
  {
  }

  lemma OnePinless(before: seq<Entry>, after: seq<Entry>, i: nat)
    requires |after| == |before| && i < |before| && before[i].pins == 0 && after[i].pins == 0
    requires forall j :: 0 <= j < |before| && j != i ==> after[j] == before[j]
    ensures PinsHeld(before, after)
  {
  }

  lemma AgreesData(entries: seq<Entry>, disk: seq<byte>, bytes: nat, view: seq<seq<byte>>, edited: set<nat>, i: nat)
    requires Agrees(entries, disk, bytes, view, edited) && i < |entries|
    ensures |entries[i].data| == bytes && (entries[i].pins > 0 ==> entries[i].valid)
            && (entries[i].valid ==> entries[i].block < |view|)
    ensures entries[i].valid ==> view[entries[i].block] == entries[i].data
  {
  }

  lemma LoadedHolds(entries: seq<Entry>, i: nat, block: nat, access: Access)
    requires Loaded(entries, i, block, access)
    ensures access == Read ==> Holds(entries, i, block)
  {
  }

  lemma HeldIndex(entries: seq<Entry>, i: nat, block: nat, access: Access)
    requires Holds(entries, i, block) || Loaded(entries, i, block, access)
    ensures i < |entries|
  {
  }

  lemma PinlessBefore(before: seq<Entry>, after: seq<Entry>, i: nat)
    requires PinsHeld(before, after) && i < |after| && after[i].pins == 0
    ensures |after| == |before| && before[i].pins == 0
  {
  }

  lemma TakeAgrees(entries: seq<Entry>, disk: seq<byte>, bytes: nat, view: seq<seq<byte>>, edited: set<nat>, i: nat,
                   block: nat, access: Access, e: Entry)
    requires Agrees(entries, disk, bytes, view, edited) && i < |entries| && block < |view|
    requires Holds(entries, i, block) || (access == Overwrite && Loaded(entries, i, block, access))
    requires e.block == entries[i].block && e.valid && e.pins == entries[i].pins + 1
    requires if access == Overwrite then e.data == Zeros(bytes) && e.dirty
             else e.data == entries[i].data && e.dirty == entries[i].dirty
    ensures e.block == block && Agrees(entries[i := e], disk, bytes, view[block := e.data], edited)
    ensures access == Read ==> view[block := e.data] == view
  {
    AgreesData(entries, disk, bytes, view, edited, i);
    hide Agrees, Absent, Zeros;
    if entries[i].valid {
      Replaced(entries, disk, bytes, view, edited, i, e, {});
      assert edited + {} == edited;
    } else {
      Filled(entries, disk, bytes, view, edited, i, e);
    }
  }

  lemma TakePins(before: seq<Entry>, middle: seq<Entry>, after: seq<Entry>, view: seq<seq<byte>>, i: nat, block: nat,
                 access: Access)
    requires PinsHeld(before, middle) && i < |middle| && |after| == |middle| && after == middle[i := after[i]]
             && before[i].pins == middle[i].pins
    requires after[i].valid && after[i].block == middle[i].block == block && after[i].pins == middle[i].pins + 1
    requires access == Read ==> after[i].data == middle[i].data && after[i].dirty == middle[i].dirty
    requires block < |view| && view[block] == after[i].data
    ensures Held(after, view, i, block) && PinnedMore(before, after, i, access)
  {
  }

  /** One pin less: an edited buffer nobody holds any more is dirty. */
  lemma Unpinned(entries: seq<Entry>, disk: seq<byte>, bytes: nat, view: seq<seq<byte>>, edited: set<nat>, i: nat,
                 e: Entry)
    requires Agrees(entries, disk, bytes, view, edited) && i < |entries| && entries[i].pins > 0
    requires e == entries[i].(pins := entries[i].pins - 1, dirty := e.dirty) && (entries[i].dirty ==> e.dirty)
    requires i in edited && e.pins == 0 ==> e.dirty
    ensures Agrees(entries[i := e], disk, bytes, view, if e.dirty then edited - {i} else edited)
  {
    hide Stored;
    var after := entries[i := e];
    forall b | 0 <= b < |view| && Absent(after, b) ensures Absent(entries, b) {
      forall j | 0 <= j < |entries| ensures !Holds(entries, j, b) {
        assert !Holds(after, j, b);
      }
    }
  }

  function Max(n: nat): nat { if n == 0 then 1 else n }

  lemma BytesUp(span: nat, deviceBytes: nat)
    requires span > 0 && deviceBytes > 0
    ensures span * deviceBytes > 0 && Max(span * deviceBytes) == span * deviceBytes
  {
    MulMono(1, span, deviceBytes);
  }

  /** Blocks one after another. */
  function Joined(blocks: seq<seq<byte>>): seq<byte> {
    if blocks == [] then [] else Joined(blocks[..|blocks| - 1]) + blocks[|blocks| - 1]
  }

  lemma JoinedEmpty()
    ensures Joined([]) == []
  {
  }

  lemma JoinedMore(blocks: seq<seq<byte>>, b: seq<byte>)
    ensures Joined(blocks + [b]) == Joined(blocks) + b
  {
    assert (blocks + [b])[..|blocks|] == blocks;
  }

  /** No pin is gained or lost, and every pinned buffer belongs to the same block and
      holds the same bytes. */
  ghost predicate BuffersKept(before: seq<Entry>, after: seq<Entry>) {
    && |after| == |before|
    && forall j :: 0 <= j < |before| ==>
         && after[j].pins == before[j].pins
         && (before[j].pins > 0 ==> after[j] == before[j].(lastUsed := after[j].lastUsed))
  }

  lemma SpareIs(entries: seq<Entry>)
    ensures Spare(entries) <==> exists i :: 0 <= i < |entries| && entries[i].pins == 0
  {
  }

  lemma SpareKept(before: seq<Entry>, after: seq<Entry>)
    requires BuffersKept(before, after)
    ensures Spare(before) ==> Spare(after)
  {
    if Spare(before) {
      var i :| 0 <= i < |before| && before[i].pins == 0;
      assert after[i].pins == 0;
    }
  }

  lemma SpareBut(before: seq<Entry>, after: seq<Entry>, first: nat, n: nat)
    requires BuffersBut(before, after, first, n)
    ensures Spare(before) ==> Spare(after)
  {
    if Spare(before) {
      var i :| 0 <= i < |before| && before[i].pins == 0;
      assert after[i].pins == 0;
    }
  }

  lemma KeptNow(entries: seq<Entry>)
    ensures BuffersKept(entries, entries)
  {
  }

  lemma KeptTwice(a: seq<Entry>, b: seq<Entry>, c: seq<Entry>)
    requires BuffersKept(a, b) && BuffersKept(b, c)
    ensures BuffersKept(a, c)
  {
  }

  /** `sizeof(Entry)`. */
  const ENTRY_SIZE: nat := 32

  /** Block `b` of a disk, or nothing past its end. */
  function DiskBlock(disk: seq<byte>, bytes: nat, b: nat): seq<byte> {
    if b * bytes + bytes <= |disk| then Slice(disk, b * bytes, bytes) else []
  }

  function DiskBlocks(disk: seq<byte>, bytes: nat, n: nat): (r: seq<seq<byte>>)
    ensures |r| == n && forall b :: 0 <= b < n ==> r[b] == DiskBlock(disk, bytes, b)
  {
    seq<seq<byte>>(n, b requires 0 <= b < n => DiskBlock(disk, bytes, b))
  }

  lemma SpanUp(size: nat, deviceBytes: nat)
    requires size > 0 && deviceBytes > 0 && size % deviceBytes == 0
    ensures size / deviceBytes > 0 && size == size / deviceBytes * deviceBytes
  {
  }

  /** Whole cache blocks fit on the device. */
  lemma WholeBlocks(count: nat, span: nat, deviceBytes: nat)
    requires span > 0
    ensures count / span * (span * deviceBytes) <= count * deviceBytes
  {
    var q := count / span;
    assert q * span <= count;
    MulMono(q * span, count, deviceBytes);
    DeviceOffset(q, span, deviceBytes);
  }

  lemma FreshAgrees(entries: seq<Entry>, disk: seq<byte>, bytes: nat, view: seq<seq<byte>>)
    requires (forall i :: 0 <= i < |entries| ==> entries[i] == Entry(0, 0, Zeros(bytes), 0, false, false))
             && |view| * bytes <= |disk|
    requires forall b :: 0 <= b < |view| ==> view[b] == DiskBlock(disk, bytes, b)
    ensures Agrees(entries, disk, bytes, view, {}) && forall b :: 0 <= b < |view| ==> Stored(disk, bytes, b, view[b])
  {
    forall b | 0 <= b < |view| ensures Stored(disk, bytes, b, view[b]) {
      BlockInside(view, disk, bytes, b);
    }
    hide Stored;
  }

  /** The bytes of one block of a buffer. */
  function Chunk(buffer: seq<byte>, bytes: nat, k: int): seq<byte> {
    if k >= 0 && k * bytes + bytes <= |buffer| then buffer[k * bytes..k * bytes + bytes] else []
  }

  lemma ChunkIs(buffer: seq<byte>, bytes: nat, k: nat)
    requires (k + 1) * bytes <= |buffer|
    ensures k * bytes + bytes <= |buffer| && (k + 1) * bytes == k * bytes + bytes
            && Chunk(buffer, bytes, k) == buffer[k * bytes..k * bytes + bytes]
  {
    assert (k + 1) * bytes == k * bytes + bytes;
  }

  /** No pin is gained or lost, and every pinned buffer belongs to the same block; those
      of blocks outside `first .. first + n` hold the same bytes. */
  ghost predicate BuffersBut(before: seq<Entry>, after: seq<Entry>, first: nat, n: nat) {
    && |after| == |before|
    && forall j :: 0 <= j < |before| ==>
         && after[j].pins == before[j].pins
         && (before[j].pins > 0 ==>
               && after[j].block == before[j].block && after[j].valid == before[j].valid
               && (!(first <= before[j].block < first + n) ==> after[j] == before[j].(lastUsed := after[j].lastUsed)))
  }

  lemma ButNow(entries: seq<Entry>, first: nat, n: nat)
    ensures BuffersBut(entries, entries, first, n)
  {
  }

  /** A buffer overwritten and released again. */
  lemma ButAfter(before: seq<Entry>, middle: seq<Entry>, after: seq<Entry>, i: nat, block: nat)
    requires PinnedMore(before, middle, i, Overwrite) && |after| == |middle| && i < |middle| && middle[i].block == block
             && middle[i].valid
    requires forall j :: 0 <= j < |after| && j != i ==> after[j] == middle[j]
    requires middle[i].pins > 0 && after[i].pins == middle[i].pins - 1 && after[i].block == block && after[i].valid
    requires before[i].pins > 0 ==> before[i].valid
    ensures BuffersBut(before, after, block, 1)
  {
  }

  lemma ButKept(a: seq<Entry>, b: seq<Entry>, c: seq<Entry>, first: nat, n: nat)
    requires BuffersBut(a, b, first, n) && BuffersKept(b, c)
    ensures BuffersBut(a, c, first, n)
  {
  }

  lemma ButTwice(a: seq<Entry>, b: seq<Entry>, c: seq<Entry>, first: nat, n: nat)
    requires BuffersBut(a, b, first, n) && BuffersBut(b, c, first + n, 1)
    ensures BuffersBut(a, c, first, n + 1)
  {
  }

  lemma KeptIdle(before: seq<Entry>, after: seq<Entry>)
    requires PinsHeld(before, after)
    ensures BuffersKept(before, after)
  {
  }

  /** A buffer pinned for reading and released again. */
  lemma KeptAfter(before: seq<Entry>, middle: seq<Entry>, after: seq<Entry>, i: nat)
    requires PinnedMore(before, middle, i, Read) && |after| == |middle| && i < |middle| && middle[i].pins > 0
             && middle[i].valid
    requires forall j :: 0 <= j < |after| && j != i ==> after[j] == middle[j]
    requires after[i] == middle[i].(pins := middle[i].pins - 1)
    requires before[i].pins > 0 ==> before[i].valid
    ensures BuffersKept(before, after)
  {
  }

  lemma HeldIs(entries: seq<Entry>, view: seq<seq<byte>>, i: nat, b: nat)
    requires Held(entries, view, i, b)
    ensures i < |entries| && entries[i].valid && entries[i].block == b && entries[i].pins > 0 && b < |view|
            && entries[i].data == view[b]
  {
  }

  lemma PinnedIs(before: seq<Entry>, after: seq<Entry>, i: nat, access: Access)
    requires PinnedMore(before, after, i, access)
    ensures |after| == |before| && i < |after| && after[i].pins == before[i].pins + 1
  {
  }

  /** Entry `i` is pinned and holds the view of block `b`. */
  ghost predicate Held(entries: seq<Entry>, view: seq<seq<byte>>, i: nat, b: nat) {
    && i < |entries| && entries[i].valid && entries[i].block == b && entries[i].pins > 0
    && b < |view| && entries[i].data == view[b]
  }

  /** Entry `i` has one pin more; every buffer that was pinned belongs to the same block
      and holds the same bytes, unless it is the one overwritten. */
  ghost predicate PinnedMore(before: seq<Entry>, after: seq<Entry>, i: nat, access: Access) {
    && |after| == |before| && i < |after|
    && (forall j :: 0 <= j < |before| && j != i ==>
        after[j].pins == before[j].pins && (before[j].pins > 0 ==> after[j] == before[j]))
    && (before[i].pins > 0 ==>
          && after[i].block == before[i].block && after[i].pins == before[i].pins + 1
          && (access == Read ==> after[i].data == before[i].data && after[i].dirty == before[i].dirty))
    && (before[i].pins == 0 ==> after[i].pins == 1)
  }

  /** Where a miss ends: the block read, or an empty entry set aside for it. */
  ghost predicate Loaded(entries: seq<Entry>, i: nat, block: nat, access: Access) {
    && i < |entries| && entries[i].block == block && !entries[i].dirty
    && (if access == Read then entries[i].valid else !entries[i].valid && Absent(entries, block))
  }

  lemma LoadedMake(entries: seq<Entry>, i: nat, block: nat, access: Access)
    requires i < |entries| && entries[i].block == block && !entries[i].dirty
    requires if access == Read then entries[i].valid else !entries[i].valid && Absent(entries, block)
    ensures Loaded(entries, i, block, access)
  {
  }
  /** Giving up an entry for block `b` does not bring `b` into the cache. */
  lemma GoneAbsent(before: seq<Entry>, after: seq<Entry>, i: nat, b: nat)
    requires Absent(before, b) && |after| == |before| && i < |after| && !after[i].valid
    requires forall j :: 0 <= j < |after| && j != i ==> after[j] == before[j]
    ensures Absent(after, b)
  {
    forall j | 0 <= j < |after| ensures !Holds(after, j, b) {
      assert !Holds(before, j, b);
    }
  }

  lemma StillAbsent(before: seq<Entry>, after: seq<Entry>, i: nat, b: nat)
    requires Absent(before, b) && |after| == |before| && i < |after|
    requires forall j :: 0 <= j < |after| ==> after[j].valid == before[j].valid && after[j].block == before[j].block
    ensures Absent(after, b)
  {
    forall j | 0 <= j < |after| ensures !Holds(after, j, b) {
      assert !Holds(before, j, b);
    }
  }

  /** The buffer and the dirty mark of an empty entry do not matter. */
  lemma Rebuffered(entries: seq<Entry>, disk: seq<byte>, bytes: nat, view: seq<seq<byte>>, edited: set<nat>, i: nat,
                   data: seq<byte>)
    requires Agrees(entries, disk, bytes, view, edited) && i < |entries| && !entries[i].valid && |data| == bytes
    ensures Agrees(entries[i := entries[i].(data := data)], disk, bytes, view, edited)
  {
    EmptyChanged(entries, disk, bytes, view, edited, i, entries[i].(data := data));
  }

  lemma Cleaned(entries: seq<Entry>, disk: seq<byte>, bytes: nat, view: seq<seq<byte>>, edited: set<nat>, i: nat)
    requires Agrees(entries, disk, bytes, view, edited) && i < |entries| && !entries[i].valid
    ensures Agrees(entries[i := entries[i].(dirty := false)], disk, bytes, view, edited)
  {
    EmptyChanged(entries, disk, bytes, view, edited, i, entries[i].(dirty := false));
  }

  lemma EmptyChanged(entries: seq<Entry>, disk: seq<byte>, bytes: nat, view: seq<seq<byte>>, edited: set<nat>, i: nat,
                     e: Entry)
    requires Agrees(entries, disk, bytes, view, edited) && i < |entries| && !entries[i].valid
    requires !e.valid && |e.data| == bytes && e.pins == 0
    ensures Agrees(entries[i := e], disk, bytes, view, edited)
  {
    hide Stored;
    var after := entries[i := e];
    forall b | 0 <= b < |view| && Absent(after, b) ensures Absent(entries, b) {
      forall j | 0 <= j < |entries| ensures !Holds(entries, j, b) {
        assert !Holds(after, j, b);
      }
    }
  }

  /** What is read from the device for an absent block is the view of it. */
  lemma LoadedIs(entries: seq<Entry>, disk: seq<byte>, bytes: nat, view: seq<seq<byte>>, edited: set<nat>, b: nat,
                 data: seq<byte>)
    requires Agrees(entries, disk, bytes, view, edited) && b < |view| && Absent(entries, b)
    requires b * bytes + bytes <= |disk| && data == Slice(disk, b * bytes, bytes)
    ensures data == view[b] && Stored(disk, bytes, b, data)
  {
  }
}
