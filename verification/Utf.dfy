/** UTF-16 <-> WTF-8 conversion of kernel/text/utf.cpp.

    The two loops work on C buffers.  Each is proved against a recursive
    specification (`Encode`, `Decode`), and the two specifications are proved to
    be exact inverses of each other. */
module Utf {
  import opened Common

  type unit = x: int | 0 <= x < 0x1_0000

  predicate HighSurrogate(p: int) { 0xD800 <= p <= 0xDBFF }

  predicate LowSurrogate(p: int) { 0xDC00 <= p <= 0xDFFF }

  // ---------------------------------------------------------------- one point

  function PointLength(p: nat): nat {
    if p < 0x80 then 1 else if p < 0x800 then 2 else if p < 0x1_0000 then 3 else 4
  }

  /** The bytes of one code point, section 3 of RFC 3629 (surrogates included). */
  function EncodePoint(p: nat): seq<byte>
    requires p <= 0x10FFFF
  {
    if p < 0x80 then [p]
    else if p < 0x800 then [0xC0 + p / 64, 0x80 + p % 64]
    else if p < 0x1_0000 then [0xE0 + p / 64 / 64, 0x80 + p / 64 % 64, 0x80 + p % 64]
    else [0xF0 + p / 64 / 64 / 64, 0x80 + p / 64 / 64 % 64, 0x80 + p / 64 % 64, 0x80 + p % 64]
  }

  function PairPoint(high: unit, low: unit): nat
    requires HighSurrogate(high) && LowSurrogate(low)
  {
    0x10000 + (high - 0xD800) * 1024 + (low - 0xDC00)
  }

  /** How many units the first code point of `units` takes. */
  function FirstUnits(units: seq<unit>): nat
    requires units != []
  {
    if HighSurrogate(units[0]) && |units| > 1 && LowSurrogate(units[1]) then 2 else 1
  }

  function FirstPoint(units: seq<unit>): nat
    requires units != []
  {
    if FirstUnits(units) == 2 then PairPoint(units[0], units[1]) else units[0]
  }

  /** Units to bytes: surrogate pairs joined, lone surrogates kept as three bytes. */
  function Encode(units: seq<unit>): seq<byte>
  {
    if units == [] then []
    else EncodePoint(FirstPoint(units)) + Encode(units[FirstUnits(units)..])
  }

  ghost predicate NullFree(s: seq<nat>) { forall i :: 0 <= i < |s| ==> s[i] != 0 }

  // ------------------------------------------------------------- byte decoding

  function LeadLength(lead: byte): nat {
    if lead < 0x80 then 1
    else if 0xC0 <= lead < 0xE0 then 2
    else if 0xE0 <= lead < 0xF0 then 3
    else if 0xF0 <= lead < 0xF8 then 4
    else 0
  }

  function LeadBits(lead: byte): nat {
    if lead < 0x80 then lead
    else if lead < 0xE0 then lead % 32
    else if lead < 0xF0 then lead % 16
    else lead % 8
  }

  function Minimum(length: nat): nat {
    if length == 2 then 0x80 else if length == 3 then 0x800 else if length == 4 then 0x10000 else 0
  }

  predicate Continuation(b: byte) { 0x80 <= b < 0xC0 }

  /** The value of a lead's bits followed by `k - 1` continuation bytes. */
  function Bits(bytes: seq<byte>, k: nat): nat
    requires 1 <= k <= |bytes|
  {
    if k == 1 then LeadBits(bytes[0]) else Bits(bytes, k - 1) * 64 + bytes[k - 1] % 64
  }

  /** The first sequence of `bytes` is a shortest-form encoding of a code point. */
  predicate WellFormedFirst(bytes: seq<byte>)
    requires bytes != []
  {
    var n := LeadLength(bytes[0]);
    && 1 <= n <= |bytes|
    && (forall i :: 1 <= i < n ==> Continuation(bytes[i]))
    && Minimum(n) <= Bits(bytes, n) <= 0x10FFFF
  }

  function Units(p: nat): seq<unit>
    requires p <= 0x10FFFF
  {
    if p >= 0x10000 then [0xD800 + (p - 0x10000) / 1024, 0xDC00 + (p - 0x10000) % 1024] else [p]
  }

  /** Bytes to units, `None` for anything that is not WTF-8.  `afterHigh` says a
      lone high surrogate was just decoded, so a low one may not follow. */
  function Decode(bytes: seq<byte>, afterHigh: bool): Option<seq<unit>>
  {
    if bytes == [] then Some([])
    else if !WellFormedFirst(bytes) then None
    else
      var n := LeadLength(bytes[0]);
      var p := Bits(bytes, n);
      if afterHigh && LowSurrogate(p) then None
      else
        match Decode(bytes[n..], HighSurrogate(p))
        case None => None
        case Some(rest) => Some(Units(p) + rest)
  }

  // -------------------------------------------------------- the inverse lemmas

  /** A lead byte carries its bits back out. */
  lemma LeadRoundTrip(n: nat, bits: nat)
    requires (n == 1 && bits < 0x80) || (n == 2 && bits < 32) || (n == 3 && bits < 16) || (n == 4 && bits < 8)
    ensures var lead := [0, 0, 0xC0, 0xE0, 0xF0][n] + bits;
            lead < 256 && LeadLength(lead) == n && LeadBits(lead) == bits
  {
  }

  /** The bits gathered from two, three and four bytes. */
  lemma BitsUnfold(b: seq<byte>)
    ensures |b| >= 2 ==> Bits(b, 2) == LeadBits(b[0]) * 64 + b[1] % 64
    ensures |b| >= 3 ==> Bits(b, 3) == (LeadBits(b[0]) * 64 + b[1] % 64) * 64 + b[2] % 64
    ensures |b| >= 4 ==> Bits(b, 4) == ((LeadBits(b[0]) * 64 + b[1] % 64) * 64 + b[2] % 64) * 64 + b[3] % 64
  {
    if |b| >= 2 { assert Bits(b, 2) == Bits(b, 1) * 64 + b[1] % 64; }
    if |b| >= 3 { assert Bits(b, 3) == Bits(b, 2) * 64 + b[2] % 64; }
    if |b| >= 4 { assert Bits(b, 4) == Bits(b, 3) * 64 + b[3] % 64; }
  }

  lemma EncodePointBits(p: nat)
    requires p <= 0x10FFFF
    ensures var e := EncodePoint(p);
            && |e| == PointLength(p) == LeadLength(e[0])
            && Bits(e, |e|) == p
            && forall i :: 1 <= i < |e| ==> Continuation(e[i])
  {
    BitsUnfold(EncodePoint(p));
    Sixties(p);
    if p >= 0x1_0000 {
      FourBytes(p);
    } else if p >= 0x800 {
      ThreeBytes(p);
    } else if p >= 0x80 {
      TwoBytes(p);
    }
    hide EncodePoint, LeadBits, LeadLength, Continuation;
  }

  /** A number from its digits in base 64. */
  lemma Sixties(p: nat)
    ensures p / 64 * 64 + p % 64 == p
    ensures (p / 64 / 64 * 64 + p / 64 % 64) * 64 + p % 64 == p
    ensures ((p / 64 / 64 / 64 * 64 + p / 64 / 64 % 64) * 64 + p / 64 % 64) * 64 + p % 64 == p
  {
    var a := p / 64;
    var b := a / 64;
    assert b / 64 * 64 + b % 64 == b && b * 64 + a % 64 == a;
  }

  lemma Carries(x: nat)
    requires x < 64
    ensures (0x80 + x) % 64 == x && Continuation(0x80 + x)
  {
  }

  lemma TwoBytes(p: nat)
    requires 0x80 <= p < 0x800
    ensures var e := EncodePoint(p);
            |e| == 2 && LeadLength(e[0]) == 2 && LeadBits(e[0]) == p / 64 && e[1] % 64 == p % 64 && Continuation(e[1])
  {
    LeadRoundTrip(2, p / 64);
    Carries(p % 64);
    hide LeadBits, LeadLength, Continuation;
  }

  lemma ThreeBytes(p: nat)
    requires 0x800 <= p < 0x1_0000
    ensures var e := EncodePoint(p);
            && |e| == 3 && LeadLength(e[0]) == 3 && LeadBits(e[0]) == p / 64 / 64
            && e[1] % 64 == p / 64 % 64 && e[2] % 64 == p % 64 && Continuation(e[1]) && Continuation(e[2])
  {
    LeadRoundTrip(3, p / 64 / 64);
    Carries(p / 64 % 64);
    Carries(p % 64);
    hide LeadBits, LeadLength, Continuation;
  }

  lemma FourBytes(p: nat)
    requires 0x1_0000 <= p <= 0x10FFFF
    ensures var e := EncodePoint(p);
            && |e| == 4 && LeadLength(e[0]) == 4 && LeadBits(e[0]) == p / 64 / 64 / 64
            && e[1] % 64 == p / 64 / 64 % 64 && e[2] % 64 == p / 64 % 64 && e[3] % 64 == p % 64
            && Continuation(e[1]) && Continuation(e[2]) && Continuation(e[3])
  {
    LeadRoundTrip(4, p / 64 / 64 / 64);
    Carries(p / 64 / 64 % 64);
    Carries(p / 64 % 64);
    Carries(p % 64);
    hide LeadBits, LeadLength, Continuation;
  }

  lemma {:induction false} BitsPrefix(a: seq<byte>, b: seq<byte>, k: nat)
    requires 1 <= k <= |a| && k <= |b| && a[..k] == b[..k]
    ensures Bits(a, k) == Bits(b, k)
  {
    assert a[k - 1] == a[..k][k - 1] == b[..k][k - 1] == b[k - 1];
    if k > 1 {
      assert a[..k - 1] == a[..k][..k - 1] == b[..k][..k - 1] == b[..k - 1];
      BitsPrefix(a, b, k - 1);
    }
  }

  lemma PointRoundTrip(p: nat, rest: seq<byte>)
    requires p <= 0x10FFFF
    ensures WellFormedFirst(EncodePoint(p) + rest)
    ensures LeadLength((EncodePoint(p) + rest)[0]) == |EncodePoint(p)| == PointLength(p)
    ensures Bits(EncodePoint(p) + rest, PointLength(p)) == p
    ensures (EncodePoint(p) + rest)[PointLength(p)..] == rest
  {
    var e := EncodePoint(p);
    EncodePointBits(p);
    assert (e + rest)[..|e|] == e == e[..|e|];
    BitsPrefix(e + rest, e, |e|);
  }

  lemma Digit(a: nat, d: nat)
    requires d < 64
    ensures (a * 64 + d) / 64 == a && (a * 64 + d) % 64 == d
  {
  }

  lemma LeadIs(lead: byte)
    requires LeadLength(lead) > 0
    ensures LeadLength(lead) == 1 ==> LeadBits(lead) == lead
    ensures LeadLength(lead) == 2 ==> LeadBits(lead) < 32 && lead == 0xC0 + LeadBits(lead)
    ensures LeadLength(lead) == 3 ==> LeadBits(lead) < 16 && lead == 0xE0 + LeadBits(lead)
    ensures LeadLength(lead) == 4 ==> LeadBits(lead) < 8 && lead == 0xF0 + LeadBits(lead)
  {
  }

  /** The bytes of a shortest-form value are the bytes it came from. */
  lemma PointOfDigits(one: nat, d1: nat, d2: nat, d3: nat)
    requires d1 < 64 && d2 < 64 && d3 < 64
    ensures one < 32 && one * 64 + d1 >= 0x80 ==>
              EncodePoint(one * 64 + d1) == [0xC0 + one, 0x80 + d1]
    ensures one < 16 && (one * 64 + d1) * 64 + d2 >= 0x800 ==>
              EncodePoint((one * 64 + d1) * 64 + d2) == [0xE0 + one, 0x80 + d1, 0x80 + d2]
    ensures one < 8 && 0x10000 <= ((one * 64 + d1) * 64 + d2) * 64 + d3 <= 0x10FFFF ==>
              EncodePoint(((one * 64 + d1) * 64 + d2) * 64 + d3) == [0xF0 + one, 0x80 + d1, 0x80 + d2, 0x80 + d3]
  {
    Digit(one, d1);
    Digit(one * 64 + d1, d2);
    Digit((one * 64 + d1) * 64 + d2, d3);
  }

  /** A well-formed first sequence is the encoding of the point it decodes to. */
  lemma FirstIsEncodePoint(bytes: seq<byte>)
    requires bytes != [] && WellFormedFirst(bytes)
    ensures var n := LeadLength(bytes[0]);
            EncodePoint(Bits(bytes, n)) == bytes[..n]
  {
    hide EncodePoint, LeadBits;
    var n := LeadLength(bytes[0]);
    BitsUnfold(bytes);
    LeadIs(bytes[0]);
    if n == 1 {
      OneByte(bytes);
    } else {
      var d1 := bytes[1] - 0x80;
      var d2 := if n > 2 then bytes[2] - 0x80 else 0;
      var d3 := if n > 3 then bytes[3] - 0x80 else 0;
      CarriedBits(bytes[1]);
      if n > 2 { CarriedBits(bytes[2]); }
      if n > 3 { CarriedBits(bytes[3]); }
      PointOfDigits(LeadBits(bytes[0]), d1, d2, d3);
      hide *;
    }
  }

  lemma CarriedBits(b: byte)
    requires Continuation(b)
    ensures b % 64 == b - 0x80 && 0 <= b - 0x80 < 64
  {
  }

  lemma OneByte(bytes: seq<byte>)
    requires bytes != [] && LeadLength(bytes[0]) == 1
    ensures Bits(bytes, 1) == bytes[0] && EncodePoint(bytes[0]) == bytes[..1]
  {
  }

  lemma UnitsOfFirst(units: seq<unit>)
    requires units != []
    ensures FirstPoint(units) <= 0x10FFFF
    ensures Units(FirstPoint(units)) == units[..FirstUnits(units)]
  {
  }

  lemma {:induction false} DecodeEncodeFrom(units: seq<unit>, afterHigh: bool)
    requires NullFree(units)
    requires afterHigh && units != [] ==> !LowSurrogate(units[0])
    ensures Decode(Encode(units), afterHigh) == Some(units)
    decreases |units|
  {
    if units != [] {
      var p, k := FirstPoint(units), FirstUnits(units);
      var rest := units[k..];
      UnitsOfFirst(units);
      PointRoundTrip(p, Encode(rest));
      DecodeEncodeFrom(rest, HighSurrogate(p));
      assert units == Units(p) + rest;
    }
  }

  /** Listing then looking up: every null-free unit sequence survives the trip
      through bytes. */
  lemma {:induction false} DecodeEncode(units: seq<unit>)
    requires NullFree(units)
    ensures Decode(Encode(units), false) == Some(units)
  {
    DecodeEncodeFrom(units, false);
  }

  lemma {:induction false} PrependPoint(p: nat, rest: seq<unit>)
    requires p <= 0x10FFFF
    requires HighSurrogate(p) && rest != [] ==> !LowSurrogate(rest[0])
    ensures Encode(Units(p) + rest) == EncodePoint(p) + Encode(rest)
  {
    hide EncodePoint;
    var units := Units(p) + rest;
    assert FirstUnits(units) == |Units(p)| && FirstPoint(units) == p;
    assert units[|Units(p)|..] == rest;
  }

  lemma {:induction false} EncodeDecodeFrom(bytes: seq<byte>, afterHigh: bool)
    requires NullFree(bytes)
    requires Decode(bytes, afterHigh).Some?
    ensures var units := Decode(bytes, afterHigh).value;
            && Encode(units) == bytes
            && NullFree(units)
            && (afterHigh && units != [] ==> !LowSurrogate(units[0]))
    decreases |bytes|
  {
    hide EncodePoint, LeadBits, LeadLength, Continuation, Encode;
    if bytes != [] {
      var n := LeadLength(bytes[0]);
      var p := Bits(bytes, n);
      EncodeDecodeFrom(bytes[n..], HighSurrogate(p));
      FirstIsEncodePoint(bytes);
      PrependPoint(p, Decode(bytes[n..], HighSurrogate(p)).value);
      FirstNotNull(bytes);
      hide Bits;
    } else {
      EncodeEmpty();
    }
  }

  lemma FirstNotNull(bytes: seq<byte>)
    requires bytes != [] && bytes[0] != 0 && WellFormedFirst(bytes)
    ensures Bits(bytes, LeadLength(bytes[0])) != 0
  {
  }

  /** The other direction: a byte string that is accepted at all has one
      spelling, the one `Encode` gives. */
  lemma {:induction false} EncodeDecode(bytes: seq<byte>)
    requires NullFree(bytes)
    requires Decode(bytes, false).Some?
    ensures Encode(Decode(bytes, false).value) == bytes
    ensures NullFree(Decode(bytes, false).value)
  {
    EncodeDecodeFrom(bytes, false);
  }

  /** Two accepted spellings of one name are the same bytes. */
  lemma OneSpelling(a: seq<byte>, b: seq<byte>)
    requires NullFree(a) && NullFree(b)
    requires Decode(a, false).Some? && Decode(a, false) == Decode(b, false)
    ensures a == b
  {
    EncodeDecode(a);
    EncodeDecode(b);
  }

  lemma {:induction false} EncodeNullFree(units: seq<unit>)
    requires NullFree(units)
    ensures NullFree(Encode(units))
    decreases |units|
  {
    if units != [] {
      EncodeNullFree(units[FirstUnits(units)..]);
    }
  }

  lemma {:induction false} EncodeConcat(a: seq<unit>, b: seq<unit>)
    requires a != [] && b != [] ==> !(HighSurrogate(a[|a| - 1]) && LowSurrogate(b[0]))
    ensures Encode(a + b) == Encode(a) + Encode(b)
    decreases |a|
  {
    hide EncodePoint, PairPoint;
    if a == [] {
      assert a + b == b;
    } else {
      var k := FirstUnits(a);
      assert FirstUnits(a + b) == k && FirstPoint(a + b) == FirstPoint(a);
      assert (a + b)[k..] == a[k..] + b;
      EncodeConcat(a[k..], b);
    }
  }

  // ------------------------------------------------------------- the two loops

  /** `utf16_to_utf8`: succeeds exactly when the name holds no null and its bytes
      and the terminator fit; on failure the destination is the empty string. */
  method Utf16ToUtf8(source: seq<unit>, destination: array<byte>) returns (ok: bool)
    modifies destination
    ensures ok <==> destination.Length > 0 && NullFree(source) && |Encode(source)| < destination.Length
    ensures ok ==> destination[..|Encode(source)|] == Encode(source)
    ensures ok ==> destination[|Encode(source)|] == 0
    ensures !ok && destination.Length > 0 ==> destination[0] == 0
  {
    hide EncodePoint, Encode, PairPoint;
    if destination.Length == 0 { return false; }
    destination[0] := 0;
    var used, i := 0, 0;
    assert source[0..] == source && destination[..0] == [];
    while i < |source|
      invariant 0 <= i <= |source|
      invariant 0 <= used < destination.Length
      invariant forall j :: 0 <= j < i ==> source[j] != 0
      invariant Encode(source) == destination[..used] + Encode(source[i..])
      decreases |source| - i
    {
      ghost var before := destination[..used];
      var point: nat := source[i];
      if point == 0 {
        destination[0] := 0;
        return false;
      }
      var step := 1;
      if HighSurrogate(point) && i + 1 < |source| && LowSurrogate(source[i + 1]) {
        point := PairPoint(source[i], source[i + 1]);
        step := 2;
      }
      EncodeStep(source, i, step, point);
      var bytes := PointLength(point);
      if bytes >= destination.Length - used {
        assert |Encode(source)| >= destination.Length;
        destination[0] := 0;
        return false;
      }
      Put(destination, used, bytes, point);
      assert destination[..used + bytes] == before + EncodePoint(point);
      used := used + bytes;
      i := i + step;
    }
    assert source[i..] == [] && Encode([]) == [] by { EncodeEmpty(); }
    destination[used] := 0;
    return true;
  }

  lemma EncodeEmpty()
    ensures Encode([]) == []
  {
  }

  lemma EncodeStep(source: seq<unit>, i: nat, step: nat, point: nat)
    requires i < |source|
    requires step == FirstUnits(source[i..]) && point == FirstPoint(source[i..])
    ensures i + step <= |source| && point <= 0x10FFFF
    ensures |EncodePoint(point)| == PointLength(point)
    ensures Encode(source[i..]) == EncodePoint(point) + Encode(source[i + step..])
  {
    assert source[i..][step..] == source[i + step..];
  }

  /** The `put` lambda: lead and continuation bytes written back to front. */
  method Put(destination: array<byte>, used: nat, bytes: nat, point: nat)
    requires point <= 0x10FFFF && bytes == PointLength(point)
    requires used + bytes < destination.Length
    modifies destination
    ensures destination[..used] == old(destination[..used])
    ensures destination[used..used + bytes] == EncodePoint(point)
  {
    var rest, i := point, bytes;
    while i > 1
      invariant 1 <= i <= bytes
      invariant rest == Shifted(point, bytes - i)
      invariant destination[..used] == old(destination[..used])
      invariant forall j :: i <= j < bytes ==> destination[used + j] == EncodePoint(point)[j]
    {
      ShiftedByte(point, i - 1);
      destination[used + i - 1] := 0x80 + rest % 64;
      rest := rest / 64;
      i := i - 1;
    }
    var lead := [0, 0, 0xC0, 0xE0, 0xF0];
    ShiftedLead(point);
    destination[used] := lead[bytes] + rest;
    assert destination[used..used + bytes] == EncodePoint(point);
  }

  /** `point` after `k` right shifts by six. */
  function Shifted(point: nat, k: nat): nat {
    if k == 0 then point else Shifted(point, k - 1) / 64
  }

  lemma ShiftedUnfold(point: nat)
    ensures Shifted(point, 0) == point
    ensures Shifted(point, 1) == point / 64
    ensures Shifted(point, 2) == point / 64 / 64
    ensures Shifted(point, 3) == point / 64 / 64 / 64
  {
    assert Shifted(point, 1) == Shifted(point, 0) / 64;
    assert Shifted(point, 2) == Shifted(point, 1) / 64;
    assert Shifted(point, 3) == Shifted(point, 2) / 64;
  }

  lemma ShiftedByte(point: nat, j: nat)
    requires point <= 0x10FFFF && 1 <= j < PointLength(point)
    ensures |EncodePoint(point)| == PointLength(point)
    ensures EncodePoint(point)[j] == 0x80 + Shifted(point, PointLength(point) - 1 - j) % 64
  {
    ShiftedUnfold(point);
  }

  lemma ShiftedLead(point: nat)
    requires point <= 0x10FFFF
    ensures |EncodePoint(point)| == PointLength(point)
    ensures EncodePoint(point)[0] == [0, 0, 0xC0, 0xE0, 0xF0][PointLength(point)] + Shifted(point,
        PointLength(point) - 1)
  {
    ShiftedUnfold(point);
  }

  /** The bytes of a C string, before its terminating null. */
  function CString(source: seq<byte>): (text: seq<byte>)
    requires 0 in source
    ensures NullFree(text) && |text| < |source| && text == source[..|text|] && source[|text|] == 0
  {
    if source[0] == 0 then [] else [source[0]] + CString(source[1..])
  }

  function Prepend(prefix: seq<unit>, rest: Option<seq<unit>>): Option<seq<unit>> {
    match rest
    case None => None
    case Some(units) => Some(prefix + units)
  }

  /** One sequence of the string: its length and value, or length 0 when it is not
      well formed.  A short sequence stops at the terminator. */
  method ReadPoint(source: seq<byte>, at: nat) returns (length: nat, point: nat)
    requires 0 in source && at < |CString(source)|
    ensures length != 0 <==> WellFormedFirst(CString(source)[at..])
    ensures length != 0 ==> length == LeadLength(source[at]) <= |CString(source)| - at
    ensures length != 0 ==> point == Bits(CString(source)[at..], length)
  {
    ghost var rest := CString(source)[at..];
    var lead := source[at];
    length, point := LeadLength(lead), LeadBits(lead);
    if length == 0 { return; }
    for i := 1 to length
      invariant i <= |rest|
      invariant point == Bits(rest, i)
      invariant forall j :: 1 <= j < i ==> Continuation(rest[j])
    {
      if !Continuation(source[at + i]) { return 0, 0; }
      point := point * 64 + source[at + i] % 64;
    }
    if point < Minimum(length) || point > 0x10FFFF { return 0, 0; }
  }

  /** `utf8_to_utf16`: accepts exactly the WTF-8 strings whose units fit, and
      never reads past the terminator. */
  method Utf8ToUtf16(source: seq<byte>, destination: array<unit>) returns (ok: bool, count: nat)
    requires 0 in source
    modifies destination
    ensures ok <==> Decode(CString(source), false).Some? && |Decode(CString(source), false).value| <= destination.Length
    ensures ok ==> count == |Decode(CString(source), false).value|
    ensures ok ==> destination[..count] == Decode(CString(source), false).value
  {
    hide Decode, WellFormedFirst, Units, LeadLength, Bits;
    ghost var text := CString(source);
    count := 0;
    var at, afterLoneHigh := 0, false;
    DecodeNothing(text);
    while source[at] != 0
      invariant 0 <= at <= |text|
      invariant 0 <= count <= destination.Length
      invariant Decode(text, false) == Prepend(destination[..count], Decode(text[at..], afterLoneHigh))
      decreases |text| - at
    {
      var length, point := ReadPoint(source, at);
      if length == 0 || (afterLoneHigh && LowSurrogate(point)) {
        DecodeIllFormed(text[at..], afterLoneHigh);
        return false, count;
      }
      DecodeStep(text, at, afterLoneHigh);
      UnitsAre(point);
      ghost var done := destination[..count];
      afterLoneHigh := HighSurrogate(point);
      at := at + length;
      if point >= 0x10000 {
        if destination.Length - count < 2 { return false, count; }
        destination[count], destination[count + 1] :=
          0xD800 + (point - 0x10000) / 1024, 0xDC00 + (point - 0x10000) % 1024;
        count := count + 2;
      } else {
        if destination.Length - count < 1 { return false, count; }
        destination[count] := point;
        count := count + 1;
      }
      assert destination[..count] == done + Units(point);
      PrependTwice(done, Units(point), Decode(text[at..], afterLoneHigh));
    }
    DecodeNothing(text[at..]);
    return true, count;
  }

  lemma UnitsAre(p: nat)
    requires p <= 0x10FFFF
    ensures Units(p) == if p >= 0x10000 then [0xD800 + (p - 0x10000) / 1024, 0xDC00 + (p - 0x10000) % 1024] else [p]
  {
  }

  lemma DecodeNothing(text: seq<byte>)
    ensures text == [] ==> Decode(text, false) == Decode(text, true) == Some([])
    ensures text[0..] == text
    ensures Decode(text, false) == Prepend([], Decode(text, false))
  {
    var d := Decode(text, false);
    if d.Some? { assert [] + d.value == d.value; }
  }

  lemma PrependTwice(a: seq<unit>, b: seq<unit>, rest: Option<seq<unit>>)
    ensures Prepend(a, Prepend(b, rest)) == Prepend(a + b, rest)
  {
    if rest.Some? { assert a + (b + rest.value) == a + b + rest.value; }
  }

  lemma DecodeIllFormed(rest: seq<byte>, afterHigh: bool)
    requires rest != []
    requires !WellFormedFirst(rest) || (afterHigh && LowSurrogate(Bits(rest, LeadLength(rest[0]))))
    ensures Decode(rest, afterHigh).None?
  {
  }

  lemma DecodeStep(text: seq<byte>, at: nat, afterHigh: bool)
    requires at < |text|
    requires var rest := text[at..];
             WellFormedFirst(rest) && !(afterHigh && LowSurrogate(Bits(rest, LeadLength(rest[0]))))
    ensures var rest := text[at..];
            var n := LeadLength(rest[0]);
            var p := Bits(rest, n);
            && p <= 0x10FFFF
            && Decode(rest, afterHigh) == Prepend(Units(p), Decode(text[at + n..], HighSurrogate(p)))
  {
    var n := LeadLength(text[at]);
    assert text[at..][n..] == text[at + n..];
  }

  lemma {:induction false} StringOf(name: seq<byte>)
    requires NullFree(name)
    ensures 0 in name + [0] && CString(name + [0]) == name
  {
    assert (name + [0])[|name|] == 0;
    if name != [] {
      assert (name + [0])[1..] == name[1..] + [0];
      StringOf(name[1..]);
    }
  }
}
