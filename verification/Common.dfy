/** Types shared by the models. */
module Common {
  datatype Option<+T> = None | Some(value: T)

  type byte = x: int | 0 <= x < 256

  /** include/shirley/io.hpp: why an operation failed. */
  datatype Error =
    | NoError | Unsupported | InvalidArgument | OutOfRange | DeviceError | NotFound
    | AlreadyExists | NoSpace | NotEmpty | Busy | ReadOnly

  function Min(a: nat, b: nat): (r: nat)
    ensures r <= a && r <= b && (r == a || r == b)
  {
    if a < b then a else b
  }

  function CeilDiv(a: nat, b: nat): nat
    requires b > 0
  {
    (a + b - 1) / b
  }

  function Div(a: nat, b: nat): nat
    requires b > 0
  {
    a / b
  }

  function Mod(a: nat, b: nat): (r: nat)
    requires b > 0
    ensures r < b
  {
    a % b
  }

  function Product(a: nat, b: nat): nat { a * b }

  function Zeros(n: nat): (r: seq<byte>)
    ensures |r| == n && forall i :: 0 <= i < n ==> r[i] == 0
  {
    seq<byte>(n, _ => 0)
  }

  // ------------------------------------------------------------ little endian

  function Le16(b: seq<byte>, at: nat): (v: nat)
    requires at + 2 <= |b|
    ensures v < 0x1_0000
  {
    b[at] as nat + 256 * (b[at + 1] as nat)
  }

  function Le32(b: seq<byte>, at: nat): (v: nat)
    requires at + 4 <= |b|
    ensures v < 0x1_0000_0000
  {
    Le16(b, at) + 0x1_0000 * Le16(b, at + 2)
  }

  function Le64(b: seq<byte>, at: nat): nat
    requires at + 8 <= |b|
  {
    Le32(b, at) + 0x1_0000_0000 * Le32(b, at + 4)
  }

  // ----------------------------------------------------------------- arithmetic

  lemma MulMono(a: int, b: int, c: nat)
    ensures a <= b ==> a * c <= b * c
  {
  }

  /** The quotient and the remainder are the only ones. */
  lemma DivModUnique(n: nat, d: nat, q: nat, r: nat)
    requires d > 0 && n == q * d + r && r < d
    ensures n / d == q && n % d == r
  {
    MulMono(n / d + 1, q, d);
    MulMono(q + 1, n / d, d);
    assert n == n / d * d + n % d;
    assert (n / d + 1) * d == n / d * d + d && (q + 1) * d == q * d + d;
  }

  lemma Scale(n: nat, a: nat, b: nat)
    requires a < b
    ensures n * a + n <= n * b
  {
    assert n * (b - a - 1) >= 0;
  }

  /** Taking the lowest digit off, in base `b`, commutes with cutting at `b * m`. */
  lemma Digits(w: nat, b: nat, m: nat)
    requires b > 0 && m > 0
    ensures b * m > 0
    ensures (w % (b * m)) % b == w % b
    ensures (w % (b * m)) / b == (w / b) % m
    ensures w / (b * m) == (w / b) / m
  {
    Scale(b, 0, m);
    var a, r := w / b, w % b;
    var c, d := a / m, a % m;
    Scale(b, d, m);
    assert w == (b * m) * c + (b * d + r) by {
      assert a == m * c + d;
      assert b * a == b * (m * c) + b * d;
      assert b * (m * c) == (b * m) * c;
    }
    DivModUnique(w, b * m, c, b * d + r);
    DivModUnique(b * d + r, b, d, r);
  }

  lemma {:induction false} SubsetSize(a: set<nat>, b: set<nat>)
    requires a <= b
    ensures |a| <= |b|
    decreases a
  {
    if a != {} {
      var x :| x in a;
      SubsetSize(a - {x}, b - {x});
    }
  }

  lemma LongerChain<T>(a: seq<T>, b: seq<T>)
    ensures (a <= b || b <= a) && |a| <= |b| ==> a <= b
  {
  }

  lemma OneMore(n: nat, cb: nat)
    ensures (n + 1) * cb == n * cb + cb
  {
  }

  lemma NoLength(cb: nat)
    requires cb > 0
    ensures CeilDiv(0, cb) == 0
  {
    DivModUnique(cb - 1, cb, 0, cb - 1);
  }

  lemma HeadRoom(slot: nat, size: nat, length: nat)
    requires 3 <= size && (slot + size) * 32 <= length
    ensures slot * 32 < length && (slot + 2) * 32 <= length
  {
  }
}
