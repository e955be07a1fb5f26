/**
 * One vertex record of a PLY file: in binary mode one `read_value` per
 * declared property, in order; in ASCII mode one line whose tokens are
 * paired with the properties by `zip`.
 */
module PlyRecords {
  import opened Wrappers
  import opened Bytes
  import opened Text
  import opened ByteFiles
  import opened PlyHeader
  import opened PlyValues

  /** A reading method's result `r`, with the cursor leaving `rest` unread, is the specified result `spec`. */
  predicate Completed<T(==)>(r: Result<T, PlyError>, spec: Result<(T, seq<Byte>), PlyError>, rest: seq<Byte>)
  {
    match spec
    case Ok(p) => r == Ok(p.0) && rest == p.1
    case Err(e) => r == Err(e)
  }

  /** `read_value(prop_type)` on the file, for the kind `KindOf(prop_type)`. */
  method ReadValue(f: ByteFile, k: Kind, little: bool, num: Numerics) returns (r: Result<real, PlyError>)
    requires f.Valid()
    modifies f
    ensures f.Valid()
    ensures Completed(r, ValueAt(k, little, f.data[old(f.pos)..], num), f.data[f.pos..])
  {
    ghost var rest := f.data[f.pos..];
    var chunk := f.Read(Width(k));
    if |chunk| < Width(k) {
      return Err(ShortRead);
    }
    assert chunk == rest[..Width(k)] && f.data[f.pos..] == rest[Width(k)..];
    return Ok(Decode(k, little, chunk, num));
  }

  // ------------------------------------------------------------ binary mode

  /** The bytes the first `k` of the property kinds `ks` take up in a binary record. */
  function RecordWidth(ks: seq<Kind>, k: nat): nat
    requires k <= |ks|
  {
    if k == 0 then 0 else RecordWidth(ks, k - 1) + Width(ks[k - 1])
  }

  /** The first `k` values of a binary record read from `rest`, and the bytes after them. */
  function BinaryUpTo(ks: seq<Kind>, little: bool, rest: seq<Byte>, num: Numerics, k: nat): Result<(seq<real>, seq<Byte>), PlyError>
    requires k <= |ks|
  {
    if k == 0 then Ok(([], rest))
    else
      var prev := BinaryUpTo(ks, little, rest, num, k - 1);
      if prev.Err? then prev
      else
        var v := ValueAt(ks[k - 1], little, prev.value.1, num);
        if v.Err? then Err(v.error) else Ok((prev.value.0 + [v.value.0], v.value.1))
  }

  /** The `data` list of one binary record. */
  function BinaryRecord(ks: seq<Kind>, little: bool, rest: seq<Byte>, num: Numerics): Result<(seq<real>, seq<Byte>), PlyError>
  {
    BinaryUpTo(ks, little, rest, num, |ks|)
  }

  lemma {:induction false} RecordWidthGrows(ks: seq<Kind>, j: nat, k: nat)
    requires j <= k <= |ks|
    ensures RecordWidth(ks, j) <= RecordWidth(ks, k)
    decreases k
  {
    if j < k {
      RecordWidthGrows(ks, j, k - 1);
    }
  }

  /**
   * A binary record is read exactly when the sum of the declared widths is
   * left; it then consumes exactly that many bytes and holds one value per
   * property, the `j`-th decoded from the `j`-th field.
   */
  lemma {:induction false} BinaryLayout(ks: seq<Kind>, little: bool, rest: seq<Byte>, num: Numerics, k: nat)
    requires k <= |ks|
    ensures var r := BinaryUpTo(ks, little, rest, num, k);
      && (r.Ok? <==> RecordWidth(ks, k) <= |rest|)
      && (r.Ok? ==> |r.value.0| == k && r.value.1 == rest[RecordWidth(ks, k)..])
      && (r.Err? ==> r.error == ShortRead)
    decreases k
  {
    if k > 0 {
      BinaryLayout(ks, little, rest, num, k - 1);
      var prev := BinaryUpTo(ks, little, rest, num, k - 1);
      if prev.Ok? {
        var w := RecordWidth(ks, k - 1);
        assert prev.value.1 == rest[w..];
        if w + Width(ks[k - 1]) <= |rest| {
          assert rest[w..][Width(ks[k - 1])..] == rest[RecordWidth(ks, k)..];
        }
      }
    }
  }

  /** Value `j` of a binary record is the decoding of field `j`, which lies after the fields before it. */
  lemma {:induction false} BinaryField(ks: seq<Kind>, little: bool, rest: seq<Byte>, num: Numerics, k: nat, j: nat)
    requires j < k <= |ks| && BinaryUpTo(ks, little, rest, num, k).Ok?
    ensures RecordWidth(ks, j + 1) <= |rest| && |BinaryUpTo(ks, little, rest, num, k).value.0| == k
    ensures BinaryUpTo(ks, little, rest, num, k).value.0[j] ==
      Decode(ks[j], little, rest[RecordWidth(ks, j)..RecordWidth(ks, j + 1)], num)
    decreases k
  {
    if j < k - 1 {
      var prev := BinaryUpTo(ks, little, rest, num, k - 1);
      BinaryLayout(ks, little, rest, num, k - 1);
      BinaryStep(ks, little, rest, num, k - 1, prev.value.0, prev.value.1);
      BinaryField(ks, little, rest, num, k - 1, j);
      assert BinaryUpTo(ks, little, rest, num, k).value.0[j] == prev.value.0[j];
    } else {
      BinaryLast(ks, little, rest, num, k);
    }
  }

  /** The last value read is the decoding of the last field. */
  lemma BinaryLast(ks: seq<Kind>, little: bool, rest: seq<Byte>, num: Numerics, k: nat)
    requires 0 < k <= |ks| && BinaryUpTo(ks, little, rest, num, k).Ok?
    ensures RecordWidth(ks, k) <= |rest| && |BinaryUpTo(ks, little, rest, num, k).value.0| == k
    ensures BinaryUpTo(ks, little, rest, num, k).value.0[k - 1] ==
      Decode(ks[k - 1], little, rest[RecordWidth(ks, k - 1)..RecordWidth(ks, k)], num)
  {
    BinaryStepOk(ks, little, rest, num, k - 1);
    BinaryLayout(ks, little, rest, num, k - 1);
    var w, t := RecordWidth(ks, k - 1), ks[k - 1];
    ValueAtOffset(t, little, rest, w, num);
  }

  /** A binary record that has read `j + 1` values read its first `j` and then one more. */
  lemma BinaryStepOk(ks: seq<Kind>, little: bool, rest: seq<Byte>, num: Numerics, j: nat)
    requires j < |ks| && BinaryUpTo(ks, little, rest, num, j + 1).Ok?
    ensures var prev := BinaryUpTo(ks, little, rest, num, j);
      && prev.Ok? && ValueAt(ks[j], little, prev.value.1, num).Ok?
      && var v := ValueAt(ks[j], little, prev.value.1, num).value;
      BinaryUpTo(ks, little, rest, num, j + 1).value == (prev.value.0 + [v.0], v.1)
  {
  }

  /** `read_value` at offset `w` of `rest` decodes the `Width` bytes from `w` on. */
  lemma ValueAtOffset(k: Kind, little: bool, rest: seq<Byte>, w: nat, num: Numerics)
    requires w + Width(k) <= |rest|
    ensures ValueAt(k, little, rest[w..], num) == Ok((Decode(k, little, rest[w..w + Width(k)], num), rest[w + Width(k)..]))
  {
    assert rest[w..][..Width(k)] == rest[w..w + Width(k)];
  }

  /** The binary branch of the record loop: one `read_value` per property, in declaration order. */
  method ReadBinaryRecord(f: ByteFile, ks: seq<Kind>, little: bool, num: Numerics) returns (r: Result<seq<real>, PlyError>)
    requires f.Valid()
    modifies f
    ensures f.Valid()
    ensures Completed(r, BinaryRecord(ks, little, f.data[old(f.pos)..], num), f.data[f.pos..])
  {
    ghost var rest := f.data[f.pos..];
    var data: seq<real> := [];
    var j := 0;
    while j < |ks|
      invariant f.Valid() && j <= |ks|
      invariant BinaryUpTo(ks, little, rest, num, j) == Ok((data, f.data[f.pos..]))
    {
      ghost var next := f.data[f.pos..];
      var v := ReadValue(f, ks[j], little, num);
      BinaryAdvance(ks, little, rest, num, j, data, next, v, f.data[f.pos..]);
      if v.Err? {
        return Err(v.error);
      }
      data := data + [v.value];
      j := j + 1;
    }
    return Ok(data);
  }

  /**
   * One more `read_value` either extends a binary record that has read well
   * so far or fails the whole record with its error.
   */
  lemma BinaryAdvance(ks: seq<Kind>, little: bool, rest: seq<Byte>, num: Numerics, j: nat, data: seq<real>, next: seq<Byte>,
                      v: Result<real, PlyError>, after: seq<Byte>)
    requires j < |ks| && BinaryUpTo(ks, little, rest, num, j) == Ok((data, next))
    requires Completed(v, ValueAt(ks[j], little, next, num), after)
    ensures v.Ok? ==> BinaryUpTo(ks, little, rest, num, j + 1) == Ok((data + [v.value], after))
    ensures v.Err? ==> BinaryRecord(ks, little, rest, num) == Err(v.error)
  {
    if v.Err? {
      BinaryErrorStays(ks, little, rest, num, j + 1);
    }
  }

  /** One more `read_value` extends a binary record that has read well so far. */
  lemma BinaryStep(ks: seq<Kind>, little: bool, rest: seq<Byte>, num: Numerics, j: nat, data: seq<real>, next: seq<Byte>)
    requires j < |ks| && BinaryUpTo(ks, little, rest, num, j) == Ok((data, next))
    ensures var v := ValueAt(ks[j], little, next, num);
      BinaryUpTo(ks, little, rest, num, j + 1) == if v.Err? then Err(v.error) else Ok((data + [v.value.0], v.value.1))
  {
  }

  /** Once a binary record fails, reading more of its properties fails the same way. */
  lemma {:induction false} BinaryErrorStays(ks: seq<Kind>, little: bool, rest: seq<Byte>, num: Numerics, k: nat)
    requires 0 < k <= |ks| && BinaryUpTo(ks, little, rest, num, k).Err?
    ensures BinaryRecord(ks, little, rest, num) == BinaryUpTo(ks, little, rest, num, k)
    decreases |ks| - k
  {
    if k < |ks| {
      BinaryErrorStays(ks, little, rest, num, k + 1);
    }
  }

  // ------------------------------------------------------------- ASCII mode

  /** The first `k` pairs of `zip(properties_list, tokens)`, each converted. */
  function AsciiUpTo(ks: seq<Kind>, ts: seq<string>, num: Numerics, k: nat): Result<seq<real>, PlyError>
    requires k <= |ks| && k <= |ts|
  {
    if k == 0 then Ok([])
    else
      var prev := AsciiUpTo(ks, ts, num, k - 1);
      if prev.Err? then prev
      else
        var v := AsciiValue(ks[k - 1], ts[k - 1], num);
        if v.Err? then Err(v.error) else Ok(prev.value + [v.value])
  }

  function Min(a: nat, b: nat): nat { if a <= b then a else b }

  /** The `data` list of one ASCII record: the line from `rest`, split, zipped and converted, and the bytes after the line. */
  function AsciiRecord(ks: seq<Kind>, rest: seq<Byte>, num: Numerics): Result<(seq<real>, seq<Byte>), PlyError>
  {
    var next := rest[LineEnd(rest, 0)..];
    match LineText(rest)
    case None => Err(NotAscii)
    case Some(line) =>
      var ts := Split(line);
      var vals := AsciiUpTo(ks, ts, num, Min(|ks|, |ts|));
      if vals.Err? then Err(vals.error) else Ok((vals.value, next))
  }

  /**
   * The zip converts each pair, in order: it succeeds exactly when every one
   * of the first `k` tokens converts for its property's type, and then holds
   * exactly their `k` values, with no padding.
   */
  lemma {:induction false} AsciiFields(ks: seq<Kind>, ts: seq<string>, num: Numerics, k: nat)
    requires k <= |ks| && k <= |ts|
    ensures AsciiUpTo(ks, ts, num, k).Ok? <==> forall j :: 0 <= j < k ==> AsciiValue(ks[j], ts[j], num).Ok?
    ensures AsciiUpTo(ks, ts, num, k).Ok? ==>
      |AsciiUpTo(ks, ts, num, k).value| == k &&
      forall j :: 0 <= j < k ==> AsciiUpTo(ks, ts, num, k).value[j] == AsciiValue(ks[j], ts[j], num).value
    decreases k
  {
    if k > 0 {
      AsciiFields(ks, ts, num, k - 1);
    }
  }

  /** An ASCII record has as many values as the shorter of the property list and the line's tokens. */
  lemma AsciiRecordLength(ks: seq<Kind>, rest: seq<Byte>, num: Numerics)
    requires AsciiRecord(ks, rest, num).Ok?
    ensures LineText(rest).Some?
    ensures |AsciiRecord(ks, rest, num).value.0| == Min(|ks|, |Split(LineText(rest).value)|)
  {
    var ts := Split(LineText(rest).value);
    AsciiFields(ks, ts, num, Min(|ks|, |ts|));
  }

  /** The ASCII branch of the record loop. */
  method ReadAsciiRecord(f: ByteFile, ks: seq<Kind>, num: Numerics) returns (r: Result<seq<real>, PlyError>)
    requires f.Valid()
    modifies f
    ensures f.Valid()
    ensures Completed(r, AsciiRecord(ks, f.data[old(f.pos)..], num), f.data[f.pos..])
  {
    ghost var rest := f.data[f.pos..];
    LineOfRest(f.data, f.pos);
    var raw := f.ReadLine();
    var text := DecodeAscii(raw);
    if text.None? {
      return Err(NotAscii);
    }
    var tokens := Split(Strip(text.value));
    assert LineText(rest) == Some(Strip(text.value));
    var data: seq<real> := [];
    var j := 0;
    while j < |ks| && j < |tokens|
      invariant j <= |ks| && j <= |tokens|
      invariant AsciiUpTo(ks, tokens, num, j) == Ok(data)
    {
      var v := AsciiValue(ks[j], tokens[j], num);
      if v.Err? {
        AsciiErrorStays(ks, tokens, num, j + 1, Min(|ks|, |tokens|));
        return Err(v.error);
      }
      data := data + [v.value];
      j := j + 1;
    }
    return Ok(data);
  }

  /** Once the zip fails, converting more pairs fails the same way. */
  lemma {:induction false} AsciiErrorStays(ks: seq<Kind>, ts: seq<string>, num: Numerics, k: nat, n: nat)
    requires 0 < k <= n <= |ks| && n <= |ts| && AsciiUpTo(ks, ts, num, k).Err?
    ensures AsciiUpTo(ks, ts, num, n) == AsciiUpTo(ks, ts, num, k)
    decreases n - k
  {
    if k < n {
      AsciiErrorStays(ks, ts, num, k + 1, n);
    }
  }
}
