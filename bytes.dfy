/**
 * Byte sequences and the fixed-width integer encodings that Python's
 * `struct` module reads with the standard-size format characters
 * (`B`, `b`, `H`, `h`, `I`, `i`, `Q`, `q`) and the opaque 32- and 64-bit
 * floating-point patterns (`f`, `d`).
 */
module Bytes {

  type Byte = b: int | 0 <= b < 256

  function Pow256(n: nat): (r: nat)
    ensures r >= 1
  {
    if n == 0 then 1 else 256 * Pow256(n - 1)
  }

  lemma Pow256Values()
    ensures Pow256(1) == 0x100 && Pow256(2) == 0x1_0000
    ensures Pow256(4) == 0x1_0000_0000
    ensures Pow256(8) == 0x1_0000_0000_0000_0000
  {
  }

  /** The unsigned value of `s`, least significant byte first. */
  function LittleEndian(s: seq<Byte>): (v: nat)
    ensures v < Pow256(|s|)
  {
    if |s| == 0 then 0 else s[0] + 256 * LittleEndian(s[1..])
  }

  /** The unsigned value of `s`, most significant byte first. */
  function BigEndian(s: seq<Byte>): (v: nat)
    ensures v < Pow256(|s|)
  {
    if |s| == 0 then 0 else 256 * BigEndian(s[..|s| - 1]) + s[|s| - 1]
  }

  /** The two's complement reading of an `n`-byte unsigned pattern. */
  function TwosComplement(v: nat, n: nat): (i: int)
    requires 0 < n && v < Pow256(n)
    ensures 2 * i < Pow256(n) && 0 <= Pow256(n) + 2 * i
    ensures i >= 0 <==> 2 * v < Pow256(n)
  {
    if 2 * v < Pow256(n) then v else v - Pow256(n)
  }

  /** The `n` bytes that `LittleEndian` reads back as `v`. */
  function EncodeLittleEndian(v: nat, n: nat): (s: seq<Byte>)
    requires v < Pow256(n)
    ensures |s| == n && LittleEndian(s) == v
  {
    if n == 0 then []
    else
      assert v / 256 < Pow256(n - 1);
      [v % 256] + EncodeLittleEndian(v / 256, n - 1)
  }

  predicate IsU64(i: int) { 0 <= i < 0x1_0000_0000_0000_0000 }
  predicate IsI32(i: int) { -0x8000_0000 <= i < 0x8000_0000 }
  predicate IsI64(i: int) { -0x8000_0000_0000_0000 <= i < 0x8000_0000_0000_0000 }

  /*
   * The writers below produce what `struct.pack` writes for a value in the
   * range of the format (`<Q`, `<i`, `<q`); `struct.pack` raises on a value
   * out of range, and the writers here write zeros then, which nothing reads.
   */

  function EncodeU64(v: int): (s: seq<Byte>)
    ensures |s| == 8
  {
    Pow256Values();
    EncodeLittleEndian(if IsU64(v) then v else 0, 8)
  }

  function EncodeI32(i: int): (s: seq<Byte>)
    ensures |s| == 4
  {
    Pow256Values();
    EncodeLittleEndian(if 0 <= i < 0x8000_0000 then i else if IsI32(i) then i + 0x1_0000_0000 else 0, 4)
  }

  function EncodeI64(i: int): (s: seq<Byte>)
    ensures |s| == 8
  {
    Pow256Values();
    EncodeLittleEndian(if 0 <= i < 0x8000_0000_0000_0000 then i else if IsI64(i) then i + 0x1_0000_0000_0000_0000 else 0, 8)
  }

  lemma {:induction false} LittleEndianInjective(s: seq<Byte>)
    ensures EncodeLittleEndian(LittleEndian(s), |s|) == s
  {
    if |s| > 0 {
      var v := LittleEndian(s);
      assert v % 256 == s[0] && v / 256 == LittleEndian(s[1..]);
      LittleEndianInjective(s[1..]);
    }
  }

  /** An IEEE-754 binary64 value, kept as the bit pattern the file holds. */
  datatype Float64 = Float64(bits: nat)

  function U8At(data: seq<Byte>, pos: nat): nat
    requires pos < |data|
  {
    data[pos]
  }

  /** `<Q`: an unsigned little-endian 64-bit integer. */
  function U64At(data: seq<Byte>, pos: nat): (v: nat)
    requires pos + 8 <= |data|
    ensures IsU64(v)
  {
    Pow256Values();
    LittleEndian(data[pos..pos + 8])
  }

  /** `<i`: a signed little-endian 32-bit integer. */
  function I32At(data: seq<Byte>, pos: nat): (i: int)
    requires pos + 4 <= |data|
  {
    var u := LittleEndian(data[pos..pos + 4]);
    if u < 0x8000_0000 then u else u - 0x1_0000_0000
  }

  /** `<q`: a signed little-endian 64-bit integer. */
  function I64At(data: seq<Byte>, pos: nat): (i: int)
    requires pos + 8 <= |data|
  {
    var u := LittleEndian(data[pos..pos + 8]);
    if u < 0x8000_0000_0000_0000 then u else u - 0x1_0000_0000_0000_0000
  }

  /** `<d`: the eight bytes of a double. */
  function F64At(data: seq<Byte>, pos: nat): (f: Float64)
    requires pos + 8 <= |data|
    ensures IsF64(f)
  {
    Float64(U64At(data, pos))
  }

  /** `k` consecutive little-endian doubles starting at `pos`. */
  function F64sAt(data: seq<Byte>, pos: nat, k: nat): (fs: seq<Float64>)
    requires pos + 8 * k <= |data|
    ensures |fs| == k
    decreases k
  {
    if k == 0 then [] else [F64At(data, pos)] + F64sAt(data, pos + 8, k - 1)
  }

  predicate IsF64(f: Float64) { IsU64(f.bits) }

  /** The eight bytes of a double. */
  function EncodeF64(f: Float64): (s: seq<Byte>)
    ensures |s| == 8
  {
    EncodeU64(f.bits)
  }

  /** An unsigned 64-bit field written at `a..b` is read back. */
  lemma U64RoundTrip(data: seq<Byte>, a: nat, b: nat, i: int)
    requires IsU64(i) && b == a + 8 <= |data| && data[a..b] == EncodeU64(i)
    ensures U64At(data, a) == i
  {
    Pow256Values();
  }

  /** A double written at `a..b` is read back. */
  lemma F64RoundTrip(data: seq<Byte>, a: nat, b: nat, f: Float64)
    requires IsF64(f) && b == a + 8 <= |data| && data[a..b] == EncodeF64(f)
    ensures F64At(data, a) == f
  {
    U64RoundTrip(data, a, b, f.bits);
  }

  /** A signed 32-bit field written at `a..b` is read back. */
  lemma I32RoundTrip(data: seq<Byte>, a: nat, b: nat, i: int)
    requires IsI32(i) && b == a + 4 <= |data| && data[a..b] == EncodeI32(i)
    ensures I32At(data, a) == i
  {
    Pow256Values();
  }

  /** A signed 64-bit field written at `a..b` is read back. */
  lemma I64RoundTrip(data: seq<Byte>, a: nat, b: nat, i: int)
    requires IsI64(i) && b == a + 8 <= |data| && data[a..b] == EncodeI64(i)
    ensures I64At(data, a) == i
  {
    Pow256Values();
  }

  /** The two parts of a concatenation written at `x..z` sit at `x..y` and `y..z`. */
  lemma SplitAt(data: seq<Byte>, x: nat, y: nat, z: nat, a: seq<Byte>, b: seq<Byte>)
    requires y == x + |a| && z == y + |b| && z <= |data| && data[x..z] == a + b
    ensures data[x..y] == a && data[y..z] == b
  {
    assert data[x..y] == (a + b)[..|a|];
    assert data[y..z] == (a + b)[|a|..];
  }

  /** Cutting the data after a field leaves the field as it was. */
  lemma PrefixSlice(data: seq<Byte>, k: nat, a: nat, b: nat)
    requires a <= b <= k <= |data|
    ensures data[..k][a..b] == data[a..b]
  {
  }
}
