/** Directory entry sets of kernel/fs/exfat.cpp as bytes: sections 6, 7.4 and 7.6 of
    the exFAT file system specification. */
module ExfatEntries {
  import opened Common
  import opened Utf
  import opened ExfatDisk

  const ENTRY_BYTES: nat := 32
  const NAME_UNITS: nat := 15
  const MAX_SET: nat := 19
  const MAX_SLOT: nat := 0x7F_FFFF

  // ------------------------------------------------------------ little endian

  function Put16(v: nat): (r: seq<byte>)
    ensures |r| == 2
  {
    [v % 256, v / 256 % 256]
  }

  function Put32(v: nat): (r: seq<byte>)
    ensures |r| == 4
  {
    Put16(v % 0x1_0000) + Put16(v / 0x1_0000)
  }

  function Put64(v: nat): seq<byte> { Put32(v % 0x1_0000_0000) + Put32(v / 0x1_0000_0000) }

  /** What is put at an offset is read back there. */
  lemma Le16Put(b: seq<byte>, at: nat, v: nat)
    requires at + 2 <= |b| && v < 0x1_0000
    ensures Le16(Splice(b, at, Put16(v)), at) == v
  {
  }

  lemma Le32Put(b: seq<byte>, at: nat, v: nat)
    requires at + 4 <= |b| && v < 0x1_0000_0000
    ensures Le32(Splice(b, at, Put32(v)), at) == v
  {
    var r := Splice(b, at, Put32(v));
    assert r == Splice(Splice(b, at, Put16(v % 0x1_0000)), at + 2, Put16(v / 0x1_0000));
    assert Le16(r, at) == v % 0x1_0000;
    assert Le16(r, at + 2) == v / 0x1_0000;
  }

  lemma Le64Put(b: seq<byte>, at: nat, v: nat)
    requires at + 8 <= |b| && v < 0x1_0000_0000_0000_0000
    ensures Le64(Splice(b, at, Put64(v)), at) == v
  {
    var lo, hi := v % 0x1_0000_0000, v / 0x1_0000_0000;
    var r := Splice(b, at, Put64(v));
    var one := Splice(b, at, Put32(lo));
    assert r == Splice(one, at + 4, Put32(hi));
    Le32Put(b, at, lo);
    Le32Put(one, at + 4, hi);
    assert r[at] == one[at] && r[at + 1] == one[at + 1] && r[at + 2] == one[at + 2] && r[at + 3] == one[at + 3];
  }

  // ------------------------------------------------------------------ checksum

  /** `checksum16`: rotate right by one and add the next byte. */
  function Checksum16(sum: nat, b: byte): (r: nat)
    ensures r < 0x1_0000
  {
    ((if sum % 2 == 1 then 0x8000 else 0) + sum / 2 + b) % 0x1_0000
  }

  /** The set checksum over the first `n` bytes, bytes 2 and 3 left out. */
  function SetChecksum(bytes: seq<byte>, n: nat): (r: nat)
    requires n <= |bytes|
    ensures r < 0x1_0000
  {
    if n == 0 then 0
    else if n - 1 == 2 || n - 1 == 3 then SetChecksum(bytes, n - 1)
    else Checksum16(SetChecksum(bytes, n - 1), bytes[n - 1])
  }

  lemma {:induction false} ChecksumSkips(a: seq<byte>, b: seq<byte>, n: nat)
    requires n <= |a| == |b|
    requires forall i :: 0 <= i < n && i != 2 && i != 3 ==> a[i] == b[i]
    ensures SetChecksum(a, n) == SetChecksum(b, n)
  {
    if n > 0 { ChecksumSkips(a, b, n - 1); }
  }

  // --------------------------------------------------------------------- names

  /** The expanded up-case table. */
  type Upcase = t: seq<unit> | |t| == 0x1_0000 witness seq(0x1_0000, _ => 0)

  function Up(up: Upcase, name: seq<unit>): (r: seq<unit>)
    ensures |r| == |name|
  {
    seq(|name|, i requires 0 <= i < |name| => up[name[i]])
  }

  function NameHash(up: Upcase, name: seq<unit>): (r: nat)
    ensures r < 0x1_0000
  {
    if name == [] then 0
    else
      var upper := up[name[|name| - 1]];
      Checksum16(Checksum16(NameHash(up, name[..|name| - 1]), upper % 256), upper / 256)
  }

  /** The hash looks at the up-cased name only, so the pre-check on it never hides a
      match. */
  lemma {:induction false} HashOfUpcase(up: Upcase, a: seq<unit>, b: seq<unit>)
    requires Up(up, a) == Up(up, b)
    ensures NameHash(up, a) == NameHash(up, b)
  {
    assert |a| == |Up(up, a)| == |Up(up, b)| == |b|;
    if a != [] {
      var n := |a| - 1;
      assert up[a[n]] == Up(up, a)[n] == Up(up, b)[n] == up[b[n]];
      assert Up(up, a[..n]) == Up(up, a)[..n] && Up(up, b[..n]) == Up(up, b)[..n];
      HashOfUpcase(up, a[..n], b[..n]);
    }
  }

  predicate ForbiddenUnit(u: unit) {
    || u < 0x20 || u == 0x22 || u == 0x2A || u == 0x2F || u == 0x3A
    || u == 0x3C || u == 0x3E || u == 0x3F || u == 0x5C || u == 0x7C
  }

  /** `legal_name`. */
  predicate LegalName(name: seq<unit>) {
    && 1 <= |name| <= 255
    && name != [0x2E] && name != [0x2E, 0x2E]
    && forall i :: 0 <= i < |name| ==> !ForbiddenUnit(name[i])
  }

  function NameEntries(length: nat): nat { (length + NAME_UNITS - 1) / NAME_UNITS }

  /** Where unit `i` of a name sits in its set. */
  function UnitAt(i: nat): nat { (2 + i / NAME_UNITS) * ENTRY_BYTES + 2 + i % NAME_UNITS * 2 }

  // ---------------------------------------------------------------- whole sets

  datatype Entry = Entry(stream: Stream, attributes: nat, name: seq<unit>) {
    predicate IsDirectory() { attributes / 16 % 2 == 1 }
  }

  /** What scanning makes of the bytes of one set: damaged sets are stepped into,
      unusable ones are stepped over. */
  datatype Parsed = Damaged | Unusable | Good(entry: Entry)

  function NameOf(bytes: seq<byte>): (name: seq<unit>)
    requires |bytes| > 35 && UnitsFit(bytes)
    ensures |name| == bytes[35]
  {
    seq(bytes[35], i requires 0 <= i < bytes[35] => UnitOf(bytes, i))
  }

  /** The name length of a set does not point past its last entry. */
  predicate UnitsFit(bytes: seq<byte>)
    requires |bytes| > 35
  {
    (2 + NameEntries(bytes[35])) * ENTRY_BYTES <= |bytes|
  }

  lemma UnitWithin(i: nat, length: nat)
    requires i < length
    ensures 66 <= UnitAt(i) && UnitAt(i) + 2 <= (2 + NameEntries(length)) * ENTRY_BYTES
  {
    assert i / 15 <= (length - 1) / 15;
    assert (length + 14) / 15 == (length - 1) / 15 + 1;
  }

  function UnitOf(bytes: seq<byte>, i: nat): unit
    requires |bytes| > 35 && UnitsFit(bytes) && i < bytes[35]
  {
    UnitWithin(i, bytes[35]);
    Le16(bytes, UnitAt(i))
  }

  function StreamOf(bytes: seq<byte>): Stream
    requires |bytes| >= 64
  {
    Stream(Le32(bytes, 52), Le64(bytes, 56), Le64(bytes, 40), bytes[33] / 2 % 2 == 1)
  }

  /** Checksum, stream extension, name entries and in-use secondaries are all right. */
  predicate WellShaped(bytes: seq<byte>)
    requires |bytes| >= 96 && |bytes| % ENTRY_BYTES == 0
  {
    var secondaries := |bytes| / ENTRY_BYTES - 1;
    && SetChecksum(bytes, |bytes|) == Le16(bytes, 2)
    && bytes[32] == 0xC0
    && bytes[35] != 0 && NameEntries(bytes[35]) <= secondaries - 1
    && (forall j :: 2 <= j < 2 + NameEntries(bytes[35]) ==> bytes[j * ENTRY_BYTES] == 0xC1)
    && (forall j :: 2 + NameEntries(bytes[35]) <= j <= secondaries ==> bytes[j * ENTRY_BYTES] >= 0xC0)
  }

  /** Length and clusters make sense. */
  predicate ContentOk(count: nat, cb: nat, s: Stream)
    requires cb > 0
  {
    && s.valid <= s.length <= count * cb
    && (s.length != 0 ==> InHeap(count, s.first))
    && (s.length != 0 && s.contiguous ==> s.first - FIRST_DATA_CLUSTER + CeilDiv(s.length, cb) <= count)
  }

  function ParseSet(count: nat, cb: nat, up: Upcase, bytes: seq<byte>): Parsed
    requires cb > 0 && |bytes| >= 96 && |bytes| % ENTRY_BYTES == 0
  {
    if !WellShaped(bytes) then Damaged
    else
      var entry := Entry(StreamOf(bytes), Le16(bytes, 4), NameOf(bytes));
      if !LegalName(entry.name) || NameHash(up, entry.name) != Le16(bytes, 36) then Unusable
      else if !ContentOk(count, cb, entry.stream) then Unusable
      else Good(entry)
  }

  // ------------------------------------------------------------ writing a set

  function WithChecksum(bytes: seq<byte>): (r: seq<byte>)
    requires |bytes| >= 4
    ensures |r| == |bytes|
  {
    Splice(bytes, 2, Put16(SetChecksum(bytes, |bytes|)))
  }

  lemma ChecksumHolds(bytes: seq<byte>)
    requires |bytes| >= 4
    ensures SetChecksum(WithChecksum(bytes), |bytes|) == Le16(WithChecksum(bytes), 2)
  {
    Le16Put(bytes, 2, SetChecksum(bytes, |bytes|));
    ChecksumSkips(WithChecksum(bytes), bytes, |bytes|);
  }

  /** The stream fields `store` writes, before the checksum. */
  function StreamFields(bytes: seq<byte>, s: Stream): (r: seq<byte>)
    requires |bytes| >= 96
    ensures |r| == |bytes|
  {
    var flags: byte := if s.contiguous then 3 else 1;
    Splice(Splice(Splice(Splice(bytes, 33, [flags]), 40, Put64(s.valid)), 52, Put32(s.first)), 56, Put64(s.length))
  }

  function WithStream(bytes: seq<byte>, s: Stream): (r: seq<byte>)
    requires |bytes| >= 96
    ensures |r| == |bytes|
  {
    WithChecksum(StreamFields(bytes, s))
  }

  predicate Storable(s: Stream) {
    s.first < 0x1_0000_0000 && s.length < 0x1_0000_0000_0000_0000 && s.valid < 0x1_0000_0000_0000_0000
  }

  lemma StreamFieldsRead(bytes: seq<byte>, s: Stream)
    requires |bytes| >= 96 && Storable(s)
    ensures StreamOf(StreamFields(bytes, s)) == s
    ensures forall i :: 0 <= i < |bytes| && (i < 33 || 34 <= i < 40 || i >= 64) ==>
            StreamFields(bytes, s)[i] == bytes[i]
  {
    var flags: byte := if s.contiguous then 3 else 1;
    var a := Splice(bytes, 33, [flags]);
    var b := Splice(a, 40, Put64(s.valid));
    var c := Splice(b, 52, Put32(s.first));
    var d := Splice(c, 56, Put64(s.length));
    assert d == StreamFields(bytes, s);
    hide Splice, Put64, Put32, Le64, Le32, StreamFields;
    Le64Put(a, 40, s.valid);
    Le32Put(b, 52, s.first);
    Le64Put(c, 56, s.length);
    Le64Same(b, d, 40);
    Le32Same(c, d, 52);
  }

  lemma Le16Same(a: seq<byte>, b: seq<byte>, at: nat)
    requires at + 2 <= |a| && at + 2 <= |b| && a[at] == b[at] && a[at + 1] == b[at + 1]
    ensures Le16(a, at) == Le16(b, at)
  {
  }

  lemma Le32Same(a: seq<byte>, b: seq<byte>, at: nat)
    requires at + 4 <= |a| && at + 4 <= |b| && forall i :: at <= i < at + 4 ==> a[i] == b[i]
    ensures Le32(a, at) == Le32(b, at)
  {
  }

  lemma Le64Same(a: seq<byte>, b: seq<byte>, at: nat)
    requires at + 8 <= |a| && at + 8 <= |b| && forall i :: at <= i < at + 8 ==> a[i] == b[i]
    ensures Le64(a, at) == Le64(b, at)
  {
  }

  /** Two sets that agree outside the stream fields and the checksum have the same
      shape and name. */
  lemma SameShape(a: seq<byte>, b: seq<byte>)
    requires |a| == |b| >= 96 && |a| % ENTRY_BYTES == 0 && WellShaped(a)
    requires SetChecksum(b, |b|) == Le16(b, 2)
    requires forall i :: 0 <= i < |a| && (i < 2 || 4 <= i < 33 || 34 <= i < 40 || i >= 64) ==> a[i] == b[i]
    ensures WellShaped(b) && NameOf(b) == NameOf(a)
    ensures Le16(b, 4) == Le16(a, 4) && Le16(b, 36) == Le16(a, 36)
  {
    hide SetChecksum;
    forall j | 2 <= j <= |a| / ENTRY_BYTES - 1 ensures a[j * ENTRY_BYTES] == b[j * ENTRY_BYTES] {
    }
    forall i | 0 <= i < a[35] ensures UnitOf(b, i) == UnitOf(a, i) {
      UnitWithin(i, a[35]);
    }
  }

  /** `store`: a good set stays good and decodes to the stream just stored. */
  lemma StoredSet(count: nat, cb: nat, up: Upcase, bytes: seq<byte>, e: Entry, s: Stream)
    requires cb > 0 && |bytes| >= 96 && |bytes| % ENTRY_BYTES == 0
    requires ParseSet(count, cb, up, bytes) == Good(e)
    requires Storable(s) && ContentOk(count, cb, s)
    ensures ParseSet(count, cb, up, WithStream(bytes, s)) == Good(e.(stream := s))
    ensures WithStream(bytes, s)[0] == bytes[0] && WithStream(bytes, s)[1] == bytes[1]
  {
    var fields := StreamFields(bytes, s);
    var r := WithStream(bytes, s);
    StreamFieldsRead(bytes, s);
    ChecksumHolds(fields);
    assert forall i :: 0 <= i < |r| && i != 2 && i != 3 ==> r[i] == fields[i];
    hide SetChecksum, WithStream, WithChecksum, StreamFields, NameHash, LegalName, ContentOk;
    SameShape(bytes, r);
    Le32Same(fields, r, 52);
    Le64Same(fields, r, 56);
    Le64Same(fields, r, 40);
  }

  /** Byte `i` of the name entries of `name`: type 0xC1, a zero flag byte, fifteen
      units, unused ones zero. */
  function NameByte(name: seq<unit>, i: nat): byte {
    var r, u := i % ENTRY_BYTES, i / ENTRY_BYTES * NAME_UNITS + (i % ENTRY_BYTES - 2) / 2;
    if r == 0 then 0xC1
    else if r == 1 || u >= |name| then 0
    else if r % 2 == 0 then name[u] % 256
    else name[u] / 256
  }

  function NameSlots(name: seq<unit>): (r: seq<byte>)
    ensures |r| == NameEntries(|name|) * ENTRY_BYTES
  {
    seq<byte>(NameEntries(|name|) * ENTRY_BYTES,
              i requires 0 <= i < NameEntries(|name|) * ENTRY_BYTES => NameByte(name, i))
  }

  lemma NameUnitBytes(name: seq<unit>, i: nat)
    requires i < |name|
    ensures 66 <= UnitAt(i) && UnitAt(i) - 64 + 2 <= NameEntries(|name|) * ENTRY_BYTES
    ensures NameByte(name, UnitAt(i) - 64) == name[i] % 256 && NameByte(name, UnitAt(i) - 63) == name[i] / 256
  {
    UnitWithin(i, |name|);
    var at := i / NAME_UNITS * ENTRY_BYTES + 2 + i % NAME_UNITS * 2;
    assert UnitAt(i) - 64 == at;
    assert at / 32 == i / 15 && at % 32 == 2 + i % 15 * 2;
    assert (at + 1) / 32 == i / 15 && (at + 1) % 32 == 3 + i % 15 * 2;
  }

  /** A File entry and a Stream Extension entry carrying the length and hash of a
      legal name, followed by its name entries, make a good set. */
  lemma AssembledSet(count: nat, cb: nat, up: Upcase, head: seq<byte>, name: seq<unit>)
    requires cb > 0 && |head| == 64 && LegalName(name)
    requires head[32] == 0xC0 && head[35] == |name| && Le16(head, 36) == NameHash(up, name)
    requires ContentOk(count, cb, StreamOf(head))
    ensures var bytes := WithChecksum(head + NameSlots(name));
            && |bytes| == (2 + NameEntries(|name|)) * ENTRY_BYTES
            && 3 <= 2 + NameEntries(|name|) <= MAX_SET
            && ParsesTo(count, cb, up, bytes, Entry(StreamOf(head), Le16(head, 4), name))
            && |bytes| > 1 && bytes[0] == head[0] && bytes[1] == head[1]
  {
    hide *;
    LegalLength(name);
    var plain := head + NameSlots(name);
    var bytes := WithChecksum(plain);
    ChecksumHolds(plain);
    Unsummed(plain);
    AssembledName(head, name, bytes);
    HeadKept(head, bytes);
    GoodSet(count, cb, up, bytes, Entry(StreamOf(head), Le16(head, 4), name));
    ParsesToIs(count, cb, up, bytes, Entry(StreamOf(head), Le16(head, 4), name));
  }

  /** The bytes are a whole set, and it says `e`. */
  ghost predicate ParsesTo(count: nat, cb: nat, up: Upcase, bytes: seq<byte>, e: Entry) {
    cb > 0 && |bytes| >= 96 && |bytes| % ENTRY_BYTES == 0 && ParseSet(count, cb, up, bytes) == Good(e)
  }

  lemma ParsesToIs(count: nat, cb: nat, up: Upcase, bytes: seq<byte>, e: Entry)
    ensures ParsesTo(count, cb, up, bytes, e) <==>
            cb > 0 && |bytes| >= 96 && |bytes| % ENTRY_BYTES == 0 && ParseSet(count, cb, up, bytes) == Good(e)
  {
    hide ParseSet;
  }

  lemma Unsummed(plain: seq<byte>)
    requires |plain| >= 4
    ensures forall i :: 0 <= i < |plain| && i != 2 && i != 3 ==> WithChecksum(plain)[i] == plain[i]
  {
  }

  lemma HeadKept(head: seq<byte>, bytes: seq<byte>)
    requires |head| == 64 <= |bytes| && forall i :: 0 <= i < 64 && i != 2 && i != 3 ==> bytes[i] == head[i]
    ensures StreamOf(bytes) == StreamOf(head) && Le16(bytes, 4) == Le16(head, 4) && Le16(bytes, 36) == Le16(head, 36)
    ensures bytes[0] == head[0] && bytes[1] == head[1]
  {
    Le32Same(head, bytes, 52);
    Le64Same(head, bytes, 56);
    Le64Same(head, bytes, 40);
  }

  lemma GoodSet(count: nat, cb: nat, up: Upcase, bytes: seq<byte>, e: Entry)
    requires cb > 0 && |bytes| >= 96 && |bytes| % ENTRY_BYTES == 0 && WellShaped(bytes)
    requires UnitsFit(bytes) && e == Entry(StreamOf(bytes), Le16(bytes, 4), NameOf(bytes))
    requires LegalName(e.name) && NameHash(up, e.name) == Le16(bytes, 36) && ContentOk(count, cb, e.stream)
    ensures ParseSet(count, cb, up, bytes) == Good(e)
  {
  }

  lemma LegalLength(name: seq<unit>)
    requires LegalName(name)
    ensures 1 <= |name| <= 255
    ensures 1 <= NameEntries(|name|) && 3 <= 2 + NameEntries(|name|) <= MAX_SET
    ensures 64 + NameEntries(|name|) * ENTRY_BYTES == (2 + NameEntries(|name|)) * ENTRY_BYTES >= 96
    ensures (2 + NameEntries(|name|)) * ENTRY_BYTES % ENTRY_BYTES == 0
  {
  }

  lemma AssembledName(head: seq<byte>, name: seq<unit>, bytes: seq<byte>)
    requires |head| == 64 && 1 <= |name| <= 255 && head[32] == 0xC0 && head[35] == |name|
    requires |bytes| == (2 + NameEntries(|name|)) * ENTRY_BYTES
    requires SetChecksum(bytes, |bytes|) == Le16(bytes, 2)
    requires forall i :: 0 <= i < |bytes| && i != 2 && i != 3 ==> bytes[i] == (head + NameSlots(name))[i]
    ensures |bytes| >= 96 && |bytes| % ENTRY_BYTES == 0 && WellShaped(bytes) && UnitsFit(bytes) && NameOf(bytes) == name
  {
    hide SetChecksum, NameSlots, UnitAt;
    assert bytes[32] == head[32] && bytes[35] == head[35];
    forall j | 2 <= j < 2 + NameEntries(|name|) ensures bytes[j * ENTRY_BYTES] == 0xC1 {
      NameType(name, j - 2);
      assert bytes[j * ENTRY_BYTES] == NameSlots(name)[j * ENTRY_BYTES - 64];
    }
    NameUnitsBack(head, name, bytes);
  }

  lemma NameType(name: seq<unit>, j: nat)
    requires j < NameEntries(|name|)
    ensures NameSlots(name)[j * ENTRY_BYTES] == 0xC1
  {
    assert NameSlots(name)[j * 32] == NameByte(name, j * 32);
  }

  lemma NameUnitsBack(head: seq<byte>, name: seq<unit>, bytes: seq<byte>)
    requires |head| == 64 && 1 <= |name| <= 255
    requires |bytes| == (2 + NameEntries(|name|)) * ENTRY_BYTES && |bytes| > 35 && bytes[35] == |name|
    requires forall i :: 64 <= i < |bytes| ==> bytes[i] == (head + NameSlots(name))[i]
    ensures UnitsFit(bytes) && NameOf(bytes) == name
  {
    forall i | 0 <= i < |name| ensures UnitOf(bytes, i) == name[i] {
      NameUnitBytes(name, i);
      var at := UnitAt(i);
      hide UnitAt, NameEntries;
      assert bytes[at] == NameSlots(name)[at - 64] == NameByte(name, at - 64);
      assert bytes[at + 1] == NameSlots(name)[at - 63] == NameByte(name, at - 63);
    }
  }

  // ----------------------------------------------------------------- erasing

  /** `erase`: the in-use bit of every entry type in the set is cleared. */
  function Erased(bytes: seq<byte>): (r: seq<byte>)
    ensures |r| == |bytes|
  {
    seq<byte>(|bytes|, i requires 0 <= i < |bytes| => if i % ENTRY_BYTES == 0 then bytes[i] % 128 else bytes[i])
  }

  lemma DifferentName(up: Upcase, a: seq<unit>, b: seq<unit>)
    requires |a| != |b| || NameHash(up, a) != NameHash(up, b)
    ensures Up(up, a) != Up(up, b)
  {
    if Up(up, a) == Up(up, b) {
      assert |a| == |Up(up, a)| == |b|;
      HashOfUpcase(up, a, b);
    }
  }

  lemma WithStreamIs(bytes: seq<byte>, s: Stream)
    requires |bytes| >= 96
    ensures WithStream(bytes, s) == WithChecksum(StreamFields(bytes, s))
  {
  }

  lemma Room(slot: nat, size: nat)
    ensures slot * ENTRY_BYTES + size * 32 == (slot + size) * ENTRY_BYTES
  {
  }

  lemma ContentParts(count: nat, cb: nat, s: Stream)
    requires cb > 0 && ContentOk(count, cb, s)
    ensures s.valid <= s.length <= count * cb
  {
  }

  lemma RootIsDirectory(root: Stream)
    ensures Entry(root, 0x10, []).IsDirectory()
  {
  }

  lemma WholeSlots(n: nat, cb: nat)
    requires cb % ENTRY_BYTES == 0
    ensures n * cb % ENTRY_BYTES == 0
  {
    var q := cb / ENTRY_BYTES;
    assert n * cb == (n * q) * ENTRY_BYTES;
    DivModUnique(n * cb, ENTRY_BYTES, n * q, 0);
  }

  lemma NameSlot(name: seq<unit>, i: nat, j: nat)
    requires j < 15 && i * 15 + j < |name|
    ensures NameByte(name, i * 32 + 2 + 2 * j) == name[i * 15 + j] % 256
            && NameByte(name, i * 32 + 3 + 2 * j) == name[i * 15 + j] / 256
  {
    DivModUnique(i * 32 + 2 + 2 * j, 32, i, 2 + 2 * j);
    DivModUnique(i * 32 + 3 + 2 * j, 32, i, 3 + 2 * j);
  }

  lemma NameRest(name: seq<unit>, i: nat, j: nat, k: nat)
    requires k < 32 && j <= 15 && (j == 15 || i * 15 + j >= |name|)
    ensures k >= 2 + 2 * j ==> NameByte(name, i * 32 + k) == 0
  {
    DivModUnique(i * 32 + k, 32, i, k);
  }

  lemma ZeroStreamFields(head: seq<byte>)
    requires |head| == 64 && head[33] == 0 && (forall i :: 40 <= i < 48 ==> head[i] == 0)
             && (forall i :: 52 <= i < 64 ==> head[i] == 0)
    ensures StreamOf(head) == Stream(0, 0, 0, false)
  {
  }

  lemma EmptyStreamOk(count: nat, cb: nat)
    requires cb > 0
    ensures ContentOk(count, cb, Stream(0, 0, 0, false))
  {
  }

  lemma KindOf(s: Stream, name: seq<unit>)
    ensures Entry(s, 0x10, name).IsDirectory() && !Entry(s, 0x20, name).IsDirectory()
    ensures forall s1: Stream :: Entry(s1, 0x10, name).IsDirectory() && !Entry(s1, 0x20, name).IsDirectory()
  {
  }

  lemma GoodParts(count: nat, cb: nat, up: Upcase, bytes: seq<byte>, e: Entry)
    requires cb > 0 && |bytes| >= 96 && |bytes| % ENTRY_BYTES == 0 && ParseSet(count, cb, up, bytes) == Good(e)
    ensures bytes[32] == 0xC0 && e.stream == StreamOf(bytes) && e.attributes == Le16(bytes, 4)
            && ContentOk(count, cb, e.stream)
  {
    hide SetChecksum, NameHash, LegalName, StreamOf, ContentOk, Le16;
  }

  lemma SameStreamFields(a: seq<byte>, b: seq<byte>)
    requires |a| >= 64 && |b| >= 64 && a[33] == b[33] && (forall i :: 40 <= i < 48 ==> a[i] == b[i])
             && (forall i :: 52 <= i < 64 ==> a[i] == b[i])
    ensures StreamOf(a) == StreamOf(b)
  {
    Le64Same(a, b, 40);
    Le32Same(a, b, 52);
    Le64Same(a, b, 56);
  }
}
