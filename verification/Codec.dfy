/** Big-endian numbers in two's complement, as the w and r functions of
    NetMessage write and read them. */
module Codec {

  type Byte = x: int | 0 <= x < 256 witness 0

  function Pow256(n: nat): (p: nat)
    ensures p > 0
  {
    if n == 0 then 1 else 256 * Pow256(n - 1)
  }

  /** The n low bytes of v, the most significant first. Shifting right is
      arithmetic, so this holds for negative numbers too. */
  function BigEndian(v: int, n: nat): (r: seq<Byte>)
    ensures |r| == n
    decreases n
  {
    if n == 0 then [] else BigEndian(v / 256, n - 1) + [v % 256]
  }

  function Number(b: seq<Byte>): nat {
    if b == [] then 0 else Number(b[..|b| - 1]) * 256 + b[|b| - 1]
  }

  /** An unsigned number of n bytes, read as a signed one. */
  function Signed(u: nat, n: nat): int {
    if 2 * u >= Pow256(n) then u - Pow256(n) else u
  }

  predicate FitsUnsigned(v: int, n: nat) {
    0 <= v < Pow256(n)
  }

  predicate FitsSigned(v: int, n: nat) {
    0 <= 2 * v + Pow256(n) && 2 * v < Pow256(n)
  }

  lemma {:induction false} NumberBigEndian(v: int, n: nat)
    ensures Number(BigEndian(v, n)) == v % Pow256(n)
    decreases n
  {
    if n > 0 {
      NumberBigEndian(v / 256, n - 1);
      var b := BigEndian(v, n);
      assert b[..n - 1] == BigEndian(v / 256, n - 1);
      ModSplit(v, Pow256(n - 1));
    }
  }

  lemma ModSplit(v: int, p: nat)
    requires p > 0
    ensures (v / 256) % p * 256 + v % 256 == v % (256 * p)
  {
    var q, r := v / 256, v % 256;
    var s, t := q / p, q % p;
    assert v == 256 * q + r && q == p * s + t;
    assert v == (256 * p) * s + (256 * t + r) by { assert 256 * (p * s) == (256 * p) * s; }
    assert 0 <= 256 * t + r < 256 * p;
    ModUnique(v, 256 * p, s, 256 * t + r);
  }

  lemma ModUnique(v: int, m: int, s: int, r: int)
    requires m > 0 && v == m * s + r && 0 <= r < m
    ensures v % m == r
  {
    var q := v / m;
    assert v == m * q + v % m;
    if q > s { assert m * q >= m * (s + 1) by { Mul(m, q, s + 1); } }
    if q < s { assert m * s >= m * (q + 1) by { Mul(m, s, q + 1); } }
  }

  lemma Mul(m: int, a: int, b: int)
    requires m > 0 && a >= b
    ensures m * a >= m * b
  {
  }

  lemma UnsignedTrip(v: int, n: nat)
    requires FitsUnsigned(v, n)
    ensures Number(BigEndian(v, n)) == v
  {
    NumberBigEndian(v, n);
    ModUnique(v, Pow256(n), 0, v);
  }

  lemma SignedTrip(v: int, n: nat)
    requires FitsSigned(v, n)
    ensures Signed(Number(BigEndian(v, n)), n) == v
  {
    NumberBigEndian(v, n);
    if v >= 0 { ModUnique(v, Pow256(n), 0, v); } else { ModUnique(v, Pow256(n), -1, v + Pow256(n)); }
  }

  /** Byte i of a number is its digit to the base 256, the first one counting
      most. */
  lemma {:induction false} BigEndianDigit(v: int, n: nat, i: nat)
    requires i < n
    ensures BigEndian(v, n)[i] == (v / Pow256(n - 1 - i)) % 256
    decreases n
  {
    if i < n - 1 {
      BigEndianDigit(v / 256, n - 1, i);
      DivTwice(v, Pow256(n - 2 - i));
    }
  }

  lemma DivTwice(v: int, p: nat)
    requires p > 0
    ensures v / 256 / p == v / (256 * p)
  {
    var q, r := v / 256, v % 256;
    var s, t := q / p, q % p;
    assert v == 256 * q + r && q == p * s + t;
    assert v == (256 * p) * s + (256 * t + r) by { assert 256 * (p * s) == (256 * p) * s; }
    DivUnique(v, 256 * p, s, 256 * t + r);
  }

  lemma DivUnique(v: int, m: int, s: int, r: int)
    requires m > 0 && v == m * s + r && 0 <= r < m
    ensures v / m == s
  {
    var q := v / m;
    assert v == m * q + v % m;
    if q > s { assert m * q >= m * (s + 1) by { Mul(m, q, s + 1); } }
    if q < s { assert m * s >= m * (q + 1) by { Mul(m, s, q + 1); } }
  }

  /** The last m bytes of a number are those of its low part. */
  lemma {:induction false} BigEndianSplit(v: int, n: nat, m: nat)
    ensures BigEndian(v, n + m) == BigEndian(v / Pow256(m), n) + BigEndian(v, m)
    decreases m
  {
    if m > 0 {
      BigEndianSplit(v / 256, n, m - 1);
      DivTwice(v, Pow256(m - 1));
    }
  }

  lemma Pow256Values()
    ensures Pow256(1) == 0x100 && Pow256(2) == 0x1_0000 && Pow256(4) == 0x1_0000_0000
  {
  }

  // ---------------------------------------------------------------------
  // Fields

  /** What a program writes into a message; n is a number of bytes. */
  datatype Field = Int(v: int, n: nat) | UInt(v: int, n: nat) | Bool(b: bool) | Text(s: seq<Byte>) | Raw(s: seq<Byte>)

  /** What the reader has to know of a field. */
  datatype FieldType = TInt(n: nat) | TUInt(n: nat) | TBool | TText | TRaw(n: nat)

  function TypeOf(f: Field): FieldType {
    match f
    case Int(_, n) => TInt(n)
    case UInt(_, n) => TUInt(n)
    case Bool(_) => TBool
    case Text(_) => TText
    case Raw(s) => TRaw(|s|)
  }

  /** The values that the C++ types can hold. */
  predicate FieldOK(f: Field) {
    match f
    case Int(v, n) => FitsSigned(v, n)
    case UInt(v, n) => FitsUnsigned(v, n)
    case Bool(_) => true
    case Text(s) => FitsSigned(|s|, 4)
    case Raw(_) => true
  }

  function Encode(f: Field): seq<Byte> {
    match f
    case Int(v, n) => BigEndian(v, n)
    case UInt(v, n) => BigEndian(v, n)
    case Bool(b) => [if b then 1 else 0]
    case Text(s) => BigEndian(|s|, 4) + s
    case Raw(s) => s
  }

  function EncodeAll(fs: seq<Field>): seq<Byte> {
    if fs == [] then [] else EncodeAll(fs[..|fs| - 1]) + Encode(fs[|fs| - 1])
  }

  lemma {:induction false} EncodeAllAt(fs: seq<Field>, i: nat)
    requires i < |fs|
    ensures EncodeAll(fs[..i + 1]) == EncodeAll(fs[..i]) + Encode(fs[i])
    ensures |EncodeAll(fs[..i])| + |Encode(fs[i])| <= |EncodeAll(fs)|
    ensures EncodeAll(fs)[|EncodeAll(fs[..i])|..|EncodeAll(fs[..i])| + |Encode(fs[i])|] == Encode(fs[i])
    decreases |fs| - i
  {
    assert fs[..i + 1][..i] == fs[..i];
    if i + 1 < |fs| { EncodePrefix(fs, i + 1); } else { assert fs[..i + 1] == fs; }
  }

  lemma {:induction false} EncodePrefix(fs: seq<Field>, i: nat)
    requires i <= |fs|
    ensures EncodeAll(fs[..i]) <= EncodeAll(fs)
    decreases |fs|
  {
    if i < |fs| {
      var gs := fs[..|fs| - 1];
      EncodePrefix(gs, i);
      assert gs[..i] == fs[..i];
    } else {
      assert fs[..i] == fs;
    }
  }
}
