/**
 * The values of one PLY record: the width and decoding that `read_value`
 * chooses for each `property` type token in binary mode, and the `int()` /
 * `float()` conversion of a token in ASCII mode.
 */
module PlyValues {
  import opened Wrappers
  import opened Bytes
  import opened Text
  import opened PlyHeader

  /** The `struct` format a type token is read with: `B`, `b`, `H`, `h`, `I`, `i`, `f` or `d`. */
  datatype Kind = U8 | I8 | U16 | I16 | U32 | I32 | F32 | F64

  /** The dispatch of `read_value`; a token it does not know is read as a 4-byte float. */
  function KindOf(t: string): Kind
  {
    if t == "float" || t == "float32" then F32
    else if t == "double" || t == "float64" then F64
    else if t == "uchar" || t == "uint8" then U8
    else if t == "char" || t == "int8" then I8
    else if t == "ushort" || t == "uint16" then U16
    else if t == "short" || t == "int16" then I16
    else if t == "uint" || t == "uint32" then U32
    else if t == "int" || t == "int32" then I32
    else F32
  }

  /** The kind of each declared property, in order. */
  function KindsOf(ps: seq<Prop>): (ks: seq<Kind>)
    ensures |ks| == |ps| && forall i :: 0 <= i < |ps| ==> ks[i] == KindOf(ps[i].kind)
  {
    seq(|ps|, i requires 0 <= i < |ps| => KindOf(ps[i].kind))
  }

  /** The bytes `f.read` is asked for. */
  function Width(k: Kind): nat
  {
    match k
    case U8 => 1
    case I8 => 1
    case U16 => 2
    case I16 => 2
    case U32 => 4
    case I32 => 4
    case F32 => 4
    case F64 => 8
  }

  predicate IsInteger(k: Kind)
  {
    k != F32 && k != F64
  }

  /**
   * The type table: 1 byte for the 8-bit tokens, 2 for the 16-bit ones, 8
   * for `double`/`float64`, and 4 for every other token, known or not.
   * The tokens ASCII mode sends through `int()` are exactly the integer ones.
   */
  lemma WidthTable(t: string)
    ensures Width(KindOf(t)) == 1 <==> t in ["uchar", "uint8", "char", "int8"]
    ensures Width(KindOf(t)) == 2 <==> t in ["ushort", "uint16", "short", "int16"]
    ensures Width(KindOf(t)) == 8 <==> t in ["double", "float64"]
    ensures Width(KindOf(t)) == 4 <==> t !in ["uchar", "uint8", "char", "int8", "ushort", "uint16", "short", "int16", "double", "float64"]
    ensures IsInteger(KindOf(t)) <==>
      t in ["uchar", "uint8", "char", "int8", "ushort", "uint16", "short", "int16", "uint", "uint32", "int", "int32"]
  {
  }

  /** The non-negative reals: what `math.exp` returns (0.0 where it underflows). */
  type NonNegative = x: real | x >= 0.0

  /**
   * What the model does not compute itself: the IEEE value of a 32- or
   * 64-bit pattern, `float()` of a token (`None` where it raises), `float()`
   * of an `int` (the nearest double, `None` where it raises OverflowError)
   * and `math.exp` (`None` where it overflows).
   */
  datatype Numerics = Numerics(f32: nat -> real, f64: nat -> real, parseFloat: string -> Option<real>,
                               fromInt: int -> Option<real>, exp: real -> Option<NonNegative>)

  /** The unsigned pattern of `chunk` in the file's byte order (`<` or `>`). */
  function Pattern(chunk: seq<Byte>, little: bool): (v: nat)
    ensures v < Pow256(|chunk|)
  {
    if little then LittleEndian(chunk) else BigEndian(chunk)
  }

  /** `struct.unpack` of exactly `Width(k)` bytes. */
  function Decode(k: Kind, little: bool, chunk: seq<Byte>, num: Numerics): real
    requires |chunk| == Width(k)
  {
    var v := Pattern(chunk, little);
    match k
    case U8 => chunk[0] as real
    case I8 => TwosComplement(chunk[0], 1) as real
    case U16 => v as real
    case I16 => TwosComplement(v, 2) as real
    case U32 => v as real
    case I32 => TwosComplement(v, 4) as real
    case F32 => num.f32(v)
    case F64 => num.f64(v)
  }

  /** `read_value` on the unread bytes `rest`: the value and the bytes after it, or `struct.error` when too few are left. */
  function ValueAt(k: Kind, little: bool, rest: seq<Byte>, num: Numerics): Result<(real, seq<Byte>), PlyError>
  {
    if |rest| < Width(k) then Err(ShortRead)
    else Ok((Decode(k, little, rest[..Width(k)], num), rest[Width(k)..]))
  }

  /** The range of an integer kind. */
  predicate InRange(k: Kind, i: int)
  {
    match k
    case U8 => 0 <= i < 0x100
    case I8 => -0x80 <= i < 0x80
    case U16 => 0 <= i < 0x1_0000
    case I16 => -0x8000 <= i < 0x8000
    case U32 => 0 <= i < 0x1_0000_0000
    case I32 => -0x8000_0000 <= i < 0x8000_0000
    case F32 => false
    case F64 => false
  }

  /** The bytes of `s` in the opposite order. */
  function Reverse(s: seq<Byte>): (r: seq<Byte>)
    ensures |r| == |s|
  {
    if |s| == 0 then [] else Reverse(s[1..]) + [s[0]]
  }

  lemma {:induction false} BigEndianReverse(s: seq<Byte>)
    ensures BigEndian(Reverse(s)) == LittleEndian(s)
  {
    if |s| > 0 {
      var r := Reverse(s);
      assert r[..|r| - 1] == Reverse(s[1..]);
      BigEndianReverse(s[1..]);
    }
  }

  /** `struct.pack` of an integer in range, in the given byte order. */
  function EncodeInteger(k: Kind, little: bool, i: int): (s: seq<Byte>)
    requires IsInteger(k) && InRange(k, i)
    ensures |s| == Width(k)
  {
    var n := Width(k);
    Pow256Values();
    var v: nat := if i >= 0 then i else i + Pow256(n);
    var le := EncodeLittleEndian(v, n);
    if little then le else Reverse(le)
  }

  /** An integer written in either byte order is read back as itself. */
  lemma IntegerRoundTrip(k: Kind, little: bool, i: int, num: Numerics)
    requires IsInteger(k) && InRange(k, i)
    ensures Decode(k, little, EncodeInteger(k, little, i), num) == i as real
  {
    var n := Width(k);
    Pow256Values();
    var v: nat := if i >= 0 then i else i + Pow256(n);
    var le := EncodeLittleEndian(v, n);
    var s := EncodeInteger(k, little, i);
    BigEndianReverse(le);
    assert Pattern(s, little) == v;
    if n == 1 {
      assert LittleEndian(le) == le[0] + 256 * LittleEndian(le[1..]);
      assert s[0] == v;
    }
  }

  /** A value in binary mode consumes exactly its width. */
  lemma ValueAtWidth(k: Kind, little: bool, rest: seq<Byte>, num: Numerics)
    ensures ValueAt(k, little, rest, num).Ok? <==> |rest| >= Width(k)
    ensures ValueAt(k, little, rest, num).Ok? ==> ValueAt(k, little, rest, num).value.1 == rest[Width(k)..]
  {
  }

  /**
   * `float(int(tok))` for the integer types and `float(tok)` for the others:
   * `ValueError` where the token does not convert, `OverflowError` where the
   * integer is beyond the range of a double.
   */
  function AsciiValue(k: Kind, tok: string, num: Numerics): Result<real, PlyError>
  {
    if IsInteger(k) then
      match ParseInt(tok)
      case None => Err(BadNumber)
      case Some(n) =>
        match num.fromInt(n)
        case None => Err(Overflow)
        case Some(x) => Ok(x)
    else
      match num.parseFloat(tok)
      case None => Err(BadNumber)
      case Some(x) => Ok(x)
  }

  /**
   * An integer written in decimal is read back in ASCII mode for an integer
   * type as `float()` of that integer, and raises `OverflowError` where that
   * conversion does; it is the integer itself wherever the double is exact.
   */
  lemma AsciiIntegerRoundTrip(k: Kind, n: int, num: Numerics)
    requires IsInteger(k)
    ensures num.fromInt(n).Some? ==> AsciiValue(k, Show(n), num) == Ok(num.fromInt(n).value)
    ensures num.fromInt(n).None? ==> AsciiValue(k, Show(n), num) == Err(Overflow)
    ensures num.fromInt(n) == Some(n as real) ==> AsciiValue(k, Show(n), num) == Ok(n as real)
  {
    ParseIntShow(n);
  }

  /** A token of a non-integer type is whatever `float()` makes of it. */
  lemma AsciiFloat(k: Kind, tok: string, num: Numerics)
    requires !IsInteger(k)
    ensures AsciiValue(k, tok, num).Ok? <==> num.parseFloat(tok).Some?
    ensures AsciiValue(k, tok, num).Ok? ==> AsciiValue(k, tok, num).value == num.parseFloat(tok).value
  {
  }
}
