/**
 * The shape shared by the three model files of a sparse reconstruction:
 * a little-endian u64 record count followed by that many records, read one
 * after the other, each stored in a dict under its own id. A record decoder
 * reads one record at a byte position and returns it together with the
 * position just past it, or the exception that the read raised.
 */
module RecordStreams {
  import opened Wrappers
  import opened Bytes
  import opened OrderedMaps

  /** Why a read raised: too few bytes were left, or a name byte was not ASCII. */
  datatype DecodeError = Truncated | NonAsciiName

  type Decoder<T> = (seq<Byte>, nat) -> Result<(T, nat), DecodeError>

  /** `n` records read one after the other from `pos`, with the position after the last one. */
  function Records<T>(data: seq<Byte>, pos: nat, n: nat, at: Decoder<T>): (r: Result<(seq<T>, nat), DecodeError>)
    ensures r.Ok? ==> |r.value.0| == n
    ensures n > 0 && at(data, pos).Err? ==> r == Err(at(data, pos).error)
    decreases n
  {
    if n == 0 then Ok(([], pos))
    else
      match at(data, pos)
      case Err(e) => Err(e)
      case Ok((rec, next)) =>
        match Records(data, next, n - 1, at)
        case Err(e) => Err(e)
        case Ok((rest, end)) => Ok(([rec] + rest, end))
  }

  /** The bytes of the records written one after the other. */
  function Concat<T>(rs: seq<T>, enc: T -> seq<Byte>): seq<Byte>
  {
    if |rs| == 0 then [] else enc(rs[0]) + Concat(rs[1..], enc)
  }

  /** Records of one fixed width `w` take `w` bytes each. */
  lemma {:induction false} ConcatLength<T>(rs: seq<T>, enc: T -> seq<Byte>, w: nat)
    requires forall rec :: |enc(rec)| == w
    ensures |Concat(rs, enc)| == w * |rs|
  {
    if |rs| > 0 {
      ConcatLength(rs[1..], enc, w);
      MulSucc(w, |rs| - 1);
    }
  }

  lemma MulSucc(w: nat, j: nat)
    ensures w * (j + 1) == w * j + w
  {
  }

  /** `at` reads back, at `pos`, the record `rec` that `enc` wrote there, if `rec` is well formed. */
  ghost predicate ReadsBack<T>(at: Decoder<T>, enc: T -> seq<Byte>, wf: T -> bool, data: seq<Byte>, pos: nat, rec: T)
  {
    wf(rec) && pos + |enc(rec)| <= |data| && data[pos..pos + |enc(rec)|] == enc(rec)
    ==> at(data, pos) == Ok((rec, pos + |enc(rec)|))
  }

  /** `at` reads back every well-formed record that `enc` wrote, wherever it sits. */
  ghost predicate Inverts<T(!new)>(at: Decoder<T>, enc: T -> seq<Byte>, wf: T -> bool)
  {
    forall data: seq<Byte>, pos: nat, rec: T :: ReadsBack(at, enc, wf, data, pos, rec)
  }

  /**
   * A read that succeeds looks at no byte past the position it returns: cut
   * the data before that position and the read raises, cut it anywhere after
   * and the read is unchanged.
   */
  ghost predicate PrefixClosed<T>(at: Decoder<T>)
  {
    && (forall data: seq<Byte>, pos: nat {:trigger at(data, pos)} ::
          at(data, pos).Ok? ==> pos <= at(data, pos).value.1 <= |data|)
    && forall data: seq<Byte>, pos: nat, k: nat {:trigger at(data[..k], pos)} ::
      at(data, pos).Ok? && k <= |data| ==>
        if k < at(data, pos).value.1 then at(data[..k], pos).Err?
        else at(data[..k], pos) == at(data, pos)
  }

  lemma {:induction false} RecordsRoundTrip<T(!new)>(at: Decoder<T>, enc: T -> seq<Byte>, wf: T -> bool,
                                               rs: seq<T>, data: seq<Byte>, pos: nat)
    requires Inverts(at, enc, wf)
    requires forall i :: 0 <= i < |rs| ==> wf(rs[i])
    requires pos + |Concat(rs, enc)| <= |data| && data[pos..pos + |Concat(rs, enc)|] == Concat(rs, enc)
    ensures Records(data, pos, |rs|, at) == Ok((rs, pos + |Concat(rs, enc)|))
  {
    if |rs| > 0 {
      var head := enc(rs[0]);
      var tail := Concat(rs[1..], enc);
      assert Concat(rs, enc) == head + tail;
      SplitAt(data, pos, pos + |head|, pos + |Concat(rs, enc)|, head, tail);
      assert pos + |head| + |tail| == pos + |Concat(rs, enc)|;
      InvertsAt(at, enc, wf, data, pos, rs[0]);
      RecordsRoundTrip(at, enc, wf, rs[1..], data, pos + |head|);
      assert [rs[0]] + rs[1..] == rs;
    }
  }

  lemma InvertsAt<T(!new)>(at: Decoder<T>, enc: T -> seq<Byte>, wf: T -> bool, data: seq<Byte>, pos: nat, rec: T)
    requires Inverts(at, enc, wf)
    requires wf(rec) && pos + |enc(rec)| <= |data| && data[pos..pos + |enc(rec)|] == enc(rec)
    ensures at(data, pos) == Ok((rec, pos + |enc(rec)|))
  {
    assert ReadsBack(at, enc, wf, data, pos, rec);
  }

  /** Successive reads never move backwards nor past the end. */
  lemma {:induction false} RecordsAdvance<T>(at: Decoder<T>, data: seq<Byte>, pos: nat, n: nat)
    requires PrefixClosed(at) && pos <= |data|
    requires Records(data, pos, n, at).Ok?
    ensures pos <= Records(data, pos, n, at).value.1 <= |data|
    decreases n
  {
    if n > 0 {
      RecordsAdvance(at, data, at(data, pos).value.1, n - 1);
    }
  }

  lemma {:induction false} RecordsPrefix<T>(at: Decoder<T>, data: seq<Byte>, pos: nat, n: nat, k: nat)
    requires PrefixClosed(at) && pos <= |data|
    requires Records(data, pos, n, at).Ok? && k <= |data|
    ensures n > 0 && k < Records(data, pos, n, at).value.1 ==> Records(data[..k], pos, n, at).Err?
    ensures Records(data, pos, n, at).value.1 <= k ==> Records(data[..k], pos, n, at) == Records(data, pos, n, at)
    decreases n
  {
    if n > 0 {
      var next := at(data, pos).value.1;
      var end := Records(data, pos, n, at).value.1;
      RecordsAdvance(at, data, next, n - 1);
      if k >= next {
        assert at(data[..k], pos) == at(data, pos);
        RecordsPrefix(at, data, next, n - 1, k);
      } else {
        assert at(data[..k], pos).Err?;
      }
    }
  }

  /** One more iteration of the record loop: the next record is read where the last one ended. */
  lemma {:induction false} RecordsSnoc<T>(data: seq<Byte>, pos: nat, n: nat, at: Decoder<T>)
    requires Records(data, pos, n, at).Ok?
    ensures var q := Records(data, pos, n, at).value.1;
      at(data, q).Err? ==> Records(data, pos, n + 1, at) == Err(at(data, q).error)
    ensures var q := Records(data, pos, n, at).value.1;
      at(data, q).Ok? ==>
        Records(data, pos, n + 1, at) == Ok((Records(data, pos, n, at).value.0 + [at(data, q).value.0], at(data, q).value.1))
    decreases n
  {
    if n == 0 {
      if at(data, pos).Ok? {
        assert Records(data, at(data, pos).value.1, 0, at) == Ok(([], at(data, pos).value.1));
        assert [at(data, pos).value.0] + [] == [] + [at(data, pos).value.0];
      }
    } else {
      var rec, next := at(data, pos).value.0, at(data, pos).value.1;
      var rest, q := Records(data, next, n - 1, at).value.0, Records(data, next, n - 1, at).value.1;
      RecordsSnoc(data, next, n - 1, at);
      if at(data, q).Ok? {
        assert [rec] + (rest + [at(data, q).value.0]) == [rec] + rest + [at(data, q).value.0];
      }
    }
  }

  /** Once a read raises, reading more records raises the same error: the loop is abandoned. */
  lemma {:induction false} RecordsStop<T>(data: seq<Byte>, pos: nat, n: nat, total: nat, at: Decoder<T>)
    requires n <= total && Records(data, pos, n, at).Err?
    ensures Records(data, pos, total, at) == Records(data, pos, n, at)
    decreases n
  {
    if at(data, pos).Ok? {
      RecordsStop(data, at(data, pos).value.1, n - 1, total - 1, at);
    }
  }

  /** The dict a file reads as holds, under each id, the last record read with that id. */
  lemma ReadFileLastWins<T>(data: seq<Byte>, at: Decoder<T>, key: T -> int, i: nat)
    requires ReadFile(data, at, key).Ok?
    requires var rs := Records(data, 8, U64At(data, 0), at).value.0;
      i < |rs| && forall j :: i < j < |rs| ==> key(rs[j]) != key(rs[i])
    ensures var rs := Records(data, 8, U64At(data, 0), at).value.0;
      ReadFile(data, at, key).value.entries[key(rs[i])] == rs[i]
  {
    var rs := Records(data, 8, U64At(data, 0), at).value.0;
    FromRecordsLastWins(rs, key, i);
  }

  /** `for _ in range(count): d[key(record)] = record` over a whole model file. */
  function ReadFile<T>(data: seq<Byte>, at: Decoder<T>, key: T -> int): (r: Result<OMap<int, T>, DecodeError>)
    ensures |data| < 8 ==> r == Err(Truncated)
    ensures r.Ok? <==> |data| >= 8 && Records(data, 8, U64At(data, 0), at).Ok?
    ensures r.Ok? ==> Valid(r.value) && |r.value.keys| <= U64At(data, 0)
    ensures r.Ok? ==> var rs := Records(data, 8, U64At(data, 0), at).value.0;
      forall id :: id in r.value.entries <==> exists i :: 0 <= i < |rs| && key(rs[i]) == id
  {
    if |data| < 8 then Err(Truncated)
    else
      match Records(data, 8, U64At(data, 0), at)
      case Err(e) => Err(e)
      case Ok((rs, _)) =>
        FromRecordsKeys(rs, key);
        Ok(FromRecords(rs, key))
  }

  /** The dict once all `count` records have been read. */
  lemma ReadFileDone<T>(data: seq<Byte>, at: Decoder<T>, key: T -> int, rs: seq<T>, end: nat)
    requires |data| >= 8 && Records(data, 8, U64At(data, 0), at) == Ok((rs, end))
    ensures ReadFile(data, at, key) == Ok(FromRecords(rs, key))
  {
  }

  /** The exception of the first record read that raises ends the whole read. */
  lemma ReadFileFails<T>(data: seq<Byte>, at: Decoder<T>, key: T -> int)
    requires |data| >= 8 && Records(data, 8, U64At(data, 0), at).Err?
    ensures ReadFile(data, at, key) == Err(Records(data, 8, U64At(data, 0), at).error)
  {
  }

  /** Every record `at` reads has property `P`. */
  ghost predicate Yields<T>(at: Decoder<T>, P: T -> bool)
  {
    forall data: seq<Byte>, pos: nat :: at(data, pos).Ok? ==> P(at(data, pos).value.0)
  }

  lemma {:induction false} RecordsYield<T>(data: seq<Byte>, pos: nat, n: nat, at: Decoder<T>, P: T -> bool)
    requires Yields(at, P) && Records(data, pos, n, at).Ok?
    ensures forall rec :: rec in Records(data, pos, n, at).value.0 ==> P(rec)
    decreases n
  {
    if n > 0 {
      RecordsYield(data, at(data, pos).value.1, n - 1, at, P);
    }
  }

  /** Every record of the dict a file reads as has the property every record read has. */
  lemma ReadFileYields<T>(data: seq<Byte>, at: Decoder<T>, key: T -> int, P: T -> bool)
    requires Yields(at, P) && ReadFile(data, at, key).Ok?
    ensures forall id :: id in ReadFile(data, at, key).value.entries ==>
      P(ReadFile(data, at, key).value.entries[id]) && key(ReadFile(data, at, key).value.entries[id]) == id
  {
    var rs := Records(data, 8, U64At(data, 0), at).value.0;
    RecordsYield(data, 8, U64At(data, 0), at, P);
    FromRecordsValues(rs, key);
  }

  /** A model file: the record count, then the records. */
  function EncodeFile<T>(rs: seq<T>, enc: T -> seq<Byte>): (data: seq<Byte>)
    requires IsU64(|rs|)
    ensures |data| == 8 + |Concat(rs, enc)|
  {
    EncodeU64(|rs|) + Concat(rs, enc)
  }

  /** The count and the records sit where the reader looks for them. */
  lemma FileLayout<T>(rs: seq<T>, enc: T -> seq<Byte>)
    requires IsU64(|rs|)
    ensures var data, body := EncodeFile(rs, enc), Concat(rs, enc);
      U64At(data, 0) == |rs| && data[8..8 + |body|] == body
  {
    var count, body := EncodeU64(|rs|), Concat(rs, enc);
    assert (count + body)[0..8] == count;
    assert (count + body)[8..8 + |body|] == body;
  }

  /** Reading a written file gives the dict that storing its records in order builds. */
  lemma FileRoundTrip<T(!new)>(at: Decoder<T>, enc: T -> seq<Byte>, wf: T -> bool, key: T -> int, rs: seq<T>)
    requires Inverts(at, enc, wf)
    requires IsU64(|rs|) && forall i :: 0 <= i < |rs| ==> wf(rs[i])
    ensures ReadFile(EncodeFile(rs, enc), at, key) == Ok(FromRecords(rs, key))
  {
    FileLayout(rs, enc);
    RecordsRoundTrip(at, enc, wf, rs, EncodeFile(rs, enc), 8);
  }

  /** A file cut short anywhere loses the whole dict: the reader raises. */
  lemma FileTruncated<T(!new)>(at: Decoder<T>, enc: T -> seq<Byte>, wf: T -> bool, key: T -> int, rs: seq<T>, k: nat)
    requires Inverts(at, enc, wf) && PrefixClosed(at)
    requires IsU64(|rs|) && forall i :: 0 <= i < |rs| ==> wf(rs[i])
    requires k < |EncodeFile(rs, enc)|
    ensures ReadFile(EncodeFile(rs, enc)[..k], at, key).Err?
  {
    var data := EncodeFile(rs, enc);
    if k >= 8 {
      FileLayout(rs, enc);
      RecordsRoundTrip(at, enc, wf, rs, data, 8);
      PrefixSlice(data, k, 0, 8);
      RecordsPrefix(at, data, 8, |rs|, k);
    }
  }
}
