/**
 * A file opened in binary mode (`open(path, 'rb')`): its bytes and the
 * position of the next read. `read(n)` and `readline()` never raise; they
 * return fewer bytes, or none, once the end of the file is near.
 */
module ByteFiles {
  import opened Bytes

  const Newline: Byte := 10

  /** The position just past the line that starts at `pos`: past its newline, or the end of the file. */
  function LineEnd(data: seq<Byte>, pos: nat): (q: nat)
    requires pos <= |data|
    ensures pos <= q <= |data|
    ensures pos < |data| ==> pos < q
    decreases |data| - pos
  {
    if pos == |data| then pos
    else if data[pos] == Newline then pos + 1
    else LineEnd(data, pos + 1)
  }

  /** The line from `pos` holds no newline but its last byte, which is a newline unless the file ends first. */
  lemma {:induction false} LineEndNewline(data: seq<Byte>, pos: nat)
    requires pos <= |data|
    ensures var q := LineEnd(data, pos);
      && (forall i :: pos <= i < q - 1 ==> data[i] != Newline)
      && (q < |data| ==> data[q - 1] == Newline)
    decreases |data| - pos
  {
    if pos < |data| && data[pos] != Newline {
      LineEndNewline(data, pos + 1);
    }
  }

  /** The end of a line is found the same way in the bytes from `p` on. */
  lemma {:induction false} LineEndFrom(data: seq<Byte>, p: nat, k: nat)
    requires p + k <= |data|
    ensures LineEnd(data[p..], k) == LineEnd(data, p + k) - p
    decreases |data| - p - k
  {
    if p + k < |data| && data[p + k] != Newline {
      LineEndFrom(data, p, k + 1);
    }
  }

  class ByteFile {
    const data: seq<Byte>
    var pos: nat

    ghost predicate Valid()
      reads this
    {
      pos <= |data|
    }

    constructor Open(bytes: seq<Byte>)
      ensures data == bytes && pos == 0 && Valid()
    {
      data := bytes;
      pos := 0;
    }

    /** `read(n)`: the next `n` bytes, or as many as are left. */
    method Read(n: nat) returns (chunk: seq<Byte>)
      requires Valid()
      modifies this
      ensures Valid()
      ensures pos == if old(pos) + n <= |data| then old(pos) + n else |data|
      ensures chunk == data[old(pos)..pos]
    {
      var end := if pos + n <= |data| then pos + n else |data|;
      chunk := data[pos..end];
      pos := end;
    }

    /** `readline()`: the bytes up to and including the next newline, or the rest of the file. */
    method ReadLine() returns (line: seq<Byte>)
      requires Valid()
      modifies this
      ensures Valid()
      ensures pos == LineEnd(data, old(pos)) && line == data[old(pos)..pos]
    {
      var end := pos;
      while end < |data| && data[end] != Newline
        invariant pos <= end <= |data|
        invariant LineEnd(data, pos) == LineEnd(data, end)
        decreases |data| - end
      {
        end := end + 1;
      }
      if end < |data| {
        end := end + 1;
      }
      line := data[pos..end];
      pos := end;
    }
  }
}
