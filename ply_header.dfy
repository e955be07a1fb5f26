/**
 * The header of a splat point-cloud file in the Stanford polygon format
 * (PLY): a `ply` line, then lines read one at a time until an exact
 * `end_header` line. A `format` line sets the data mode and the byte order,
 * an `element vertex` line the record count, and each `property TYPE NAME`
 * line declares one field of every record; every other line is skipped.
 */
module PlyHeader {
  import opened Wrappers
  import opened Bytes
  import opened Text
  import opened ByteFiles

  /** A `property TYPE NAME` line: its type token and its name token. */
  datatype Prop = Prop(kind: string, name: string)

  /** What the scan gathers: `format_binary`, `is_little_endian`, `vertex_count` and `properties_list`. */
  datatype Header = Header(binary: bool, little: bool, count: int, props: seq<Prop>)

  /** The values the loader starts the scan with. */
  const Initial: Header := Header(false, true, 0, [])

  /** The exceptions that end a load. */
  datatype PlyError =
    | InvalidPly     // the first line is not `ply`: ValueError
    | NotAscii       // a line holds a byte above 127: UnicodeDecodeError
    | MissingToken   // a header line has too few tokens: IndexError
    | BadNumber      // `int()` or `float()` rejects a token: ValueError
    | ShortRead      // a binary value runs past the end of the file: struct.error
    | MissingValue   // an attribute has no value in its record: IndexError
    | Overflow       // `math.exp` in the colour logistic, or `float()` of an ASCII integer token, leaves the double range: OverflowError
    | ShapeMismatch  // `np.column_stack` of columns of different lengths: ValueError

  /** How a load ends: with a value, with an exception, or never. */
  datatype Outcome<T> = Done(value: T) | Raised(error: PlyError) | Diverges

  /** One pass of the header loop over the stripped line: the new header and whether the line was `end_header`. */
  function HeaderLine(line: string, h: Header): Result<(Header, bool), PlyError>
  {
    if StartsWith(line, "format") then
      var ts := Split(line);
      if |ts| < 2 then Err(MissingToken)
      else Ok((h.(binary := h.binary || Contains(ts[1], "binary"), little := Contains(ts[1], "little")), false))
    else if StartsWith(line, "element vertex") then
      var ts := Split(line);
      if |ts| == 0 then Err(MissingToken)
      else
        match ParseInt(ts[|ts| - 1])
        case None => Err(BadNumber)
        case Some(n) => Ok((h.(count := n), false))
    else if StartsWith(line, "property") then
      var ts := Split(line);
      if |ts| < 3 then Err(MissingToken)
      else Ok((h.(props := h.props + [Prop(ts[1], ts[2])]), false))
    else Ok((h, line == "end_header"))
  }

  /**
   * Only `end_header` ends the header, and it changes nothing; only an
   * `element vertex` line changes the count; only a `property` line with at
   * least three tokens declares a property, the one its second and third
   * tokens name, after those declared before it.
   */
  lemma HeaderLineEffects(line: string, h: Header)
    ensures var r := HeaderLine(line, h);
      && (r.Ok? && r.value.1 ==> line == "end_header" && r.value.0 == h)
      && (line == "end_header" ==> r == Ok((h, true)))
      && (r.Ok? ==> r.value.0.count == h.count || StartsWith(line, "element vertex"))
      && (r.Ok? && r.value.0.props != h.props ==>
            StartsWith(line, "property") && |Split(line)| >= 3 && r.value.0.props == h.props + [Prop(Split(line)[1], Split(line)[2])])
  {
  }

  /** `readline().decode('ascii').strip()` on the unread bytes `rest`; `None` where the decode raises. */
  function LineText(rest: seq<Byte>): Option<string>
  {
    var text := DecodeAscii(rest[..LineEnd(rest, 0)]);
    if text.None? then None else Some(Strip(text.value))
  }

  /**
   * The header loop over the unread bytes `rest`, with the scan's state `h`;
   * on `end_header` it returns the header and the bytes after that line. At
   * the end of the file `readline()` returns nothing, which no branch of the
   * loop matches, so the loop then runs forever.
   */
  function ScanHeader(rest: seq<Byte>, h: Header): Outcome<(Header, seq<Byte>)>
    decreases |rest|, 0
  {
    if |rest| == 0 then Diverges
    else
      var text := LineText(rest);
      if text.None? then Raised(NotAscii) else Pass(text.value, h, rest[LineEnd(rest, 0)..])
  }

  /** One pass of the loop over the stripped line `line`, then the scan of the bytes `next` after it. */
  function Pass(line: string, h: Header, next: seq<Byte>): Outcome<(Header, seq<Byte>)>
    decreases |next|, 1
  {
    var step := HeaderLine(line, h);
    if step.Err? then Raised(step.error)
    else if step.value.1 then Done((step.value.0, next))
    else ScanHeader(next, step.value.0)
  }

  /** The whole header: the magic line, then the scan. The bytes returned are the data after the header, a proper suffix of the file. */
  function ParseHeader(data: seq<Byte>): (r: Outcome<(Header, seq<Byte>)>)
    ensures r.Done? ==> |r.value.1| < |data| && r.value.1 == data[|data| - |r.value.1|..]
  {
    var q := LineEnd(data, 0);
    var magic := LineText(data);
    if magic.None? then Raised(NotAscii)
    else if magic.value != "ply" then Raised(InvalidPly)
    else
      var r := ScanHeader(data[q..], Initial);
      ScanHeaderEnds(data[q..], Initial);
      assert r.Done? ==> data[q..][|data[q..]| - |r.value.1|..] == data[|data| - |r.value.1|..];
      r
  }

  lemma {:induction false} ScanHeaderEnds(rest: seq<Byte>, h: Header)
    ensures var r := ScanHeader(rest, h);
      r.Done? ==> |r.value.1| < |rest| && r.value.1 == rest[|rest| - |r.value.1|..]
    decreases |rest|
  {
    if |rest| > 0 {
      var q := LineEnd(rest, 0);
      var text := LineText(rest);
      if text.Some? {
        var step := HeaderLine(text.value, h);
        ScanStep(rest, text.value, h);
        PassStep(text.value, h, rest[q..]);
        if step.Ok? && !step.value.1 {
          ScanHeaderEnds(rest[q..], step.value.0);
          var r := ScanHeader(rest[q..], step.value.0);
          if r.Done? {
            assert rest[q..][|rest[q..]| - |r.value.1|..] == rest[|rest| - |r.value.1|..];
          }
        }
      }
    }
  }

  /** At the end of the file the line read is empty, and a pass over it leaves the scan as it was. */
  lemma EndOfFileRepeats(h: Header)
    ensures LineEnd([], 0) == 0
    ensures LineText([]) == Some("")
    ensures HeaderLine("", h) == Ok((h, false))
  {
    assert !StartsWith("", "format") && !StartsWith("", "element vertex") && !StartsWith("", "property");
  }

  /** The line `readline()` returns at `pos` is the first line of the unread bytes, and the bytes after it are what is left. */
  lemma LineOfRest(data: seq<Byte>, pos: nat)
    requires pos <= |data|
    ensures var rest, q := data[pos..], LineEnd(data, pos);
      data[pos..q] == rest[..LineEnd(rest, 0)] && data[q..] == rest[LineEnd(rest, 0)..]
  {
    LineEndFrom(data, pos, 0);
  }

  /** The outcome `o` of the header method, with the cursor at `pos` in `data`, is the scan's outcome `spec`. */
  ghost predicate Scanned(o: Outcome<Header>, spec: Outcome<(Header, seq<Byte>)>, data: seq<Byte>, pos: nat)
    requires pos <= |data|
  {
    match spec
    case Done((h, body)) => o == Done(h) && body == data[pos..]
    case Raised(e) => o == Raised(e)
    case Diverges => o == Diverges
  }

  /** The `ply` check and the `while in_header` loop of `load_ply_gaussian_splats`. */
  method ReadHeader(f: ByteFile) returns (o: Outcome<Header>)
    requires f.Valid() && f.pos == 0
    modifies f
    ensures f.Valid() && Scanned(o, ParseHeader(f.data), f.data, f.pos)
  {
    var first := f.ReadLine();
    assert f.data[0..] == f.data;
    var magic := DecodeAscii(first);
    if magic.None? {
      return Raised(NotAscii);
    }
    if Strip(magic.value) != "ply" {
      return Raised(InvalidPly);
    }
    var h := Initial;
    var inHeader := true;
    while inHeader
      invariant f.Valid()
      invariant inHeader ==> ParseHeader(f.data) == ScanHeader(f.data[f.pos..], h)
      invariant !inHeader ==> ParseHeader(f.data) == Done((h, f.data[f.pos..]))
      decreases |f.data| - f.pos, inHeader
    {
      if f.pos == |f.data| {
        // every later `readline()` returns b'' and the loop never ends
        EndOfFileRepeats(h);
        return Diverges;
      }
      ghost var rest := f.data[f.pos..];
      LineOfRest(f.data, f.pos);
      var raw := f.ReadLine();
      var line := DecodeAscii(raw);
      if line.None? {
        return Raised(NotAscii);
      }
      var step := HeaderLine(Strip(line.value), h);
      ScanStep(rest, Strip(line.value), h);
      PassStep(Strip(line.value), h, f.data[f.pos..]);
      if step.Err? {
        return Raised(step.error);
      }
      h, inHeader := step.value.0, !step.value.1;
    }
    return Done(h);
  }

  // ------------------------------------------------------- writing a header

  /** Text that can be written as one line of an ASCII header. */
  predicate IsLineText(s: string)
  {
    forall i :: 0 <= i < |s| ==> s[i] as int < 128 && s[i] != '\n'
  }

  /** The ASCII bytes of `s`. */
  function AsciiBytes(s: string): (bs: seq<Byte>)
    requires forall i :: 0 <= i < |s| ==> s[i] as int < 128
    ensures |bs| == |s|
  {
    if |s| == 0 then [] else [s[0] as int] + AsciiBytes(s[1..])
  }

  lemma {:induction false} AsciiBytesAt(s: string)
    requires forall i :: 0 <= i < |s| ==> s[i] as int < 128
    ensures forall i :: 0 <= i < |s| ==> AsciiBytes(s)[i] == s[i] as int
  {
    if |s| > 0 {
      AsciiBytesAt(s[1..]);
      assert forall i :: 1 <= i < |s| ==> AsciiBytes(s)[i] == AsciiBytes(s[1..])[i - 1];
    }
  }

  /** One line of text and its newline. */
  function LineBytes(s: string): (bs: seq<Byte>)
    requires IsLineText(s)
    ensures |bs| == |s| + 1
  {
    AsciiBytes(s) + [Newline]
  }

  /** A line written before `rest` is read back by `readline()` and decoded into its text and newline. */
  lemma LineAt(s: string, rest: seq<Byte>)
    requires IsLineText(s)
    ensures var data := LineBytes(s) + rest;
      && LineEnd(data, 0) == |s| + 1
      && DecodeAscii(data[..|s| + 1]) == Some(s + "\n")
      && data[|s| + 1..] == rest
  {
    var data := LineBytes(s) + rest;
    var q := |s| + 1;
    AsciiBytesAt(s);
    assert forall i :: 0 <= i < q - 1 ==> data[i] == s[i] as int;
    assert data[q - 1] == Newline;
    LineEndAt(data, 0, q);
    var bs, t := data[..q], s + "\n";
    assert forall i :: 0 <= i < |bs| ==> bs[i] == t[i] as int < 128;
    DecodeAsciiChars(bs);
    assert DecodeAscii(bs).Some?;
    var d := DecodeAscii(bs).value;
    assert |d| == |t|;
    assert forall i :: 0 <= i < |t| ==> d[i] as int == t[i] as int;
    assert d == t;
    assert data[q..] == rest;
  }

  lemma {:induction false} LineEndAt(data: seq<Byte>, pos: nat, q: nat)
    requires pos < q <= |data| && data[q - 1] == Newline
    requires forall i :: pos <= i < q - 1 ==> data[i] != Newline
    ensures LineEnd(data, pos) == q
    decreases q - pos
  {
    if pos < q - 1 {
      LineEndAt(data, pos + 1, q);
    }
  }

  /** An ASCII line with no whitespace at either end, which `strip()` leaves as it is. */
  predicate Trimmed(s: string)
  {
    IsLineText(s) && |s| > 0 && !IsSpace(s[0]) && !IsSpace(s[|s| - 1])
  }

  predicate AllTrimmed(ss: seq<string>)
  {
    forall i :: 0 <= i < |ss| ==> Trimmed(ss[i])
  }

  /** The stripped line is the text written, when it has no whitespace at either end. */
  lemma StripLine(s: string)
    requires |s| > 0 && !IsSpace(s[0]) && !IsSpace(s[|s| - 1])
    ensures Strip(s + "\n") == s
  {
    StripPadded("", s, "\n");
    assert "" + s + "\n" == s + "\n";
  }

  /** The bytes of several lines, one after the other. */
  function Lines(ss: seq<string>): (bs: seq<Byte>)
    requires AllTrimmed(ss)
  {
    if |ss| == 0 then [] else LineBytes(ss[0]) + Lines(ss[1..])
  }

  lemma LinesCons(s: string, ss: seq<string>)
    requires Trimmed(s) && AllTrimmed(ss)
    ensures AllTrimmed([s] + ss) && Lines([s] + ss) == LineBytes(s) + Lines(ss)
  {
    assert ([s] + ss)[1..] == ss;
  }

  /** A token that can be written into a header line. */
  predicate IsAsciiToken(s: string)
  {
    IsToken(s) && IsLineText(s)
  }

  /** Tokens written with single spaces between them make a header line. */
  lemma {:induction false} JoinTrimmed(ts: seq<string>)
    requires |ts| > 0 && forall i :: 0 <= i < |ts| ==> IsAsciiToken(ts[i])
    ensures Trimmed(Join(ts)) && Join(ts)[0] == ts[0][0]
  {
    if |ts| > 1 {
      JoinTrimmed(ts[1..]);
      var a, b := ts[0] + " ", Join(ts[1..]);
      assert Join(ts) == a + b;
      assert forall i :: |a| <= i < |a + b| ==> (a + b)[i] == b[i - |a|];
      assert (a + b)[|a + b| - 1] == b[|b| - 1];
    }
  }

  /** The `format` line: ASCII, or binary in one of the two byte orders. */
  function FormatToken(h: Header): string
  {
    if !h.binary then "ascii" else if h.little then "binary_little_endian" else "binary_big_endian"
  }

  /** A header that a file can state: in ASCII mode the byte order is not little-endian, as the scan finds. */
  predicate Writable(h: Header)
  {
    && (!h.binary ==> !h.little)
    && forall j :: 0 <= j < |h.props| ==> IsAsciiToken(h.props[j].kind) && IsAsciiToken(h.props[j].name)
  }

  function FormatLine(h: Header): string { Join(["format", FormatToken(h), "1.0"]) }

  function ElementLine(n: int): string { Join(["element", "vertex", Show(n)]) }

  function PropertyLine(p: Prop): string { Join(["property", p.kind, p.name]) }

  function PropertyLines(ps: seq<Prop>): (ss: seq<string>)
    ensures |ss| == |ps| && forall j :: 0 <= j < |ps| ==> ss[j] == PropertyLine(ps[j])
  {
    if |ps| == 0 then [] else [PropertyLine(ps[0])] + PropertyLines(ps[1..])
  }

  lemma LiteralTexts()
    ensures Trimmed("ply") && Trimmed("end_header")
    ensures IsAsciiToken("format") && IsAsciiToken("1.0") && IsAsciiToken("element") && IsAsciiToken("vertex")
    ensures IsAsciiToken("property")
  {
  }

  lemma FormatText(h: Header)
    ensures Trimmed(FormatLine(h))
  {
    LiteralTexts();
    assert IsAsciiToken(FormatToken(h));
    JoinTrimmed(["format", FormatToken(h), "1.0"]);
  }

  lemma ElementText(n: int)
    ensures Trimmed(ElementLine(n))
  {
    LiteralTexts();
    ShowToken(n);
    JoinTrimmed(["element", "vertex", Show(n)]);
  }

  lemma PropertyTexts(ps: seq<Prop>)
    requires forall j :: 0 <= j < |ps| ==> IsAsciiToken(ps[j].kind) && IsAsciiToken(ps[j].name)
    ensures AllTrimmed(PropertyLines(ps))
  {
    var ls := PropertyLines(ps);
    forall j | 0 <= j < |ls| ensures Trimmed(ls[j]) {
      PropertyText(ps[j]);
    }
  }

  lemma PropertyText(p: Prop)
    requires IsAsciiToken(p.kind) && IsAsciiToken(p.name)
    ensures Trimmed(PropertyLine(p))
  {
    assert IsAsciiToken("property");
    JoinTrimmed(["property", p.kind, p.name]);
  }

  lemma ShowToken(n: int)
    ensures IsAsciiToken(Show(n))
  {
    var d := ShowNat(if n < 0 then -n else n);
    assert forall i :: 0 <= i < |d| ==> IsDigit(d[i]) && !IsSpace(d[i]);
    if n < 0 {
      assert Show(n) == "-" + d;
      assert forall i :: 1 <= i < |Show(n)| ==> Show(n)[i] == d[i - 1];
    }
  }

  /** The header lines between the magic line and `end_header`: the format, the count and the properties in order. */
  function BodyLines(h: Header): seq<string>
  {
    [FormatLine(h), ElementLine(h.count)] + PropertyLines(h.props)
  }

  lemma BodyTexts(h: Header)
    requires Writable(h)
    ensures AllTrimmed(BodyLines(h))
  {
    FormatText(h);
    ElementText(h.count);
    PropertyTexts(h.props);
    var ls, ps := BodyLines(h), PropertyLines(h.props);
    forall i | 2 <= i < |ls| ensures Trimmed(ls[i]) {
      assert ls[i] == ps[i - 2];
    }
  }

  /** The bytes of the header that declares `h`. */
  function HeaderBytes(h: Header): seq<Byte>
    requires Writable(h)
  {
    LiteralTexts();
    BodyTexts(h);
    LineBytes("ply") + Lines(BodyLines(h)) + LineBytes("end_header")
  }

  /** The scan's state before each line of `BodyLines(h)`, and after the last. */
  function BodyStates(h: Header): (hs: seq<Header>)
    ensures |hs| == |BodyLines(h)| + 1
  {
    var h1 := Initial.(binary := h.binary, little := h.little);
    [Initial, h1] + seq(|h.props| + 1, k requires 0 <= k <= |h.props| => h1.(count := h.count, props := h.props[..k]))
  }

  /** Line `i` of the header body takes the scan from its state to the next one. */
  lemma BodyStep(h: Header, i: nat)
    requires Writable(h) && i < |BodyLines(h)|
    ensures HeaderLine(BodyLines(h)[i], BodyStates(h)[i]) == Ok((BodyStates(h)[i + 1], false))
  {
    if i == 0 {
      FormatBodyStep(h);
    } else if i == 1 {
      ElementBodyStep(h);
    } else {
      PropertyBodyStep(h, i);
    }
  }

  lemma FormatBodyStep(h: Header)
    requires Writable(h)
    ensures HeaderLine(BodyLines(h)[0], BodyStates(h)[0]) == Ok((BodyStates(h)[1], false))
  {
    FormatStep(h);
  }

  lemma ElementBodyStep(h: Header)
    requires Writable(h)
    ensures HeaderLine(BodyLines(h)[1], BodyStates(h)[1]) == Ok((BodyStates(h)[2], false))
  {
    ElementStep(Initial.(binary := h.binary, little := h.little), h.count);
    assert h.props[..0] == [];
  }

  lemma PropertyBodyStep(h: Header, i: nat)
    requires Writable(h) && 2 <= i < |BodyLines(h)|
    ensures HeaderLine(BodyLines(h)[i], BodyStates(h)[i]) == Ok((BodyStates(h)[i + 1], false))
  {
    var ls, hs := BodyLines(h), BodyStates(h);
    var p := h.props[i - 2];
    assert ls[i] == PropertyLine(p);
    PropertyStep(p, hs[i]);
    assert h.props[..i - 2] + [p] == h.props[..i - 1];
  }

  /** Lines written before `rest`, each taking the scan from one state to the next, take it from the first to the last. */
  lemma {:induction false} ScanLines(ls: seq<string>, rest: seq<Byte>, hs: seq<Header>)
    requires AllTrimmed(ls) && |hs| == |ls| + 1
    requires forall i :: 0 <= i < |ls| ==> HeaderLine(ls[i], hs[i]) == Ok((hs[i + 1], false))
    ensures ScanHeader(Lines(ls) + rest, hs[0]) == ScanHeader(rest, hs[|ls|])
  {
    if |ls| > 0 {
      var tail := Lines(ls[1..]);
      assert Lines(ls) + rest == LineBytes(ls[0]) + (tail + rest);
      assert HeaderLine(ls[0], hs[0]) == Ok((hs[1], false));
      ScanLineTo(ls[0], tail + rest, hs[0], hs[1]);
      ScanLines(ls[1..], rest, hs[1..]);
    } else {
      assert Lines(ls) + rest == rest;
    }
  }

  /** Each line of the header body takes the scan from one state to the next. */
  lemma BodySteps(h: Header)
    requires Writable(h)
    ensures var ls, hs := BodyLines(h), BodyStates(h);
      forall i :: 0 <= i < |ls| ==> HeaderLine(ls[i], hs[i]) == Ok((hs[i + 1], false))
  {
    forall i | 0 <= i < |BodyLines(h)| ensures HeaderLine(BodyLines(h)[i], BodyStates(h)[i]) == Ok((BodyStates(h)[i + 1], false)) {
      BodyStep(h, i);
    }
  }

  /**
   * A header written out is read back: the same mode, byte order, count and
   * properties in declaration order, with the data starting right after it,
   * whatever the data is.
   */
  lemma HeaderRoundTrip(h: Header, body: seq<Byte>)
    requires Writable(h)
    ensures ParseHeader(HeaderBytes(h) + body) == Done((h, body))
  {
    LiteralTexts();
    BodyTexts(h);
    var ls := BodyLines(h);
    var last := LineBytes("end_header") + body;
    assert HeaderBytes(h) + body == LineBytes("ply") + (Lines(ls) + last);
    MagicScan(Lines(ls) + last);
    BodyScan(h, last);
    EndScan(h, body);
  }

  /** After a `ply` line the scan starts from the initial state. */
  lemma MagicScan(rest: seq<Byte>)
    ensures ParseHeader(LineBytes("ply") + rest) == ScanHeader(rest, Initial)
  {
    LiteralTexts();
    LineTextAt("ply", rest);
  }

  /** The header body takes the scan from the initial state to `h`. */
  lemma BodyScan(h: Header, rest: seq<Byte>)
    requires Writable(h)
    ensures AllTrimmed(BodyLines(h))
    ensures ScanHeader(Lines(BodyLines(h)) + rest, Initial) == ScanHeader(rest, h)
  {
    BodyTexts(h);
    var ls, hs := BodyLines(h), BodyStates(h);
    BodySteps(h);
    ScanLines(ls, rest, hs);
    assert hs[|ls|] == h by {
      assert h.props[..|h.props|] == h.props;
    }
  }

  /** The `end_header` line ends the scan with the bytes after it. */
  lemma EndScan(h: Header, body: seq<Byte>)
    ensures Trimmed("end_header")
    ensures ScanHeader(LineBytes("end_header") + body, h) == Done((h, body))
  {
    LiteralTexts();
    EndStep(h);
    ScanLine("end_header", body, h);
  }

  /** `end_header` ends the scan and leaves the state as it is. */
  lemma EndStep(h: Header)
    ensures HeaderLine("end_header", h) == Ok((h, true))
  {
    NotPrefixAt("end_header", "format", 0);
    NotPrefixAt("end_header", "element vertex", 1);
    NotPrefixAt("end_header", "property", 0);
  }

  /** Text does not start with a text that differs from it at `i`. */
  lemma NotPrefixAt(s: string, p: string, i: nat)
    requires i < |s| && i < |p| && s[i] != p[i]
    ensures !StartsWith(s, p)
  {
    if |p| <= |s| {
      assert s[..|p|][i] == s[i];
    }
  }

  /** A header line written before `rest` that does not end the header moves the scan on to `rest`. */
  lemma ScanLineTo(s: string, rest: seq<Byte>, h: Header, h2: Header)
    requires Trimmed(s) && HeaderLine(s, h) == Ok((h2, false))
    ensures ScanHeader(LineBytes(s) + rest, h) == ScanHeader(rest, h2)
  {
    ScanLine(s, rest, h);
  }

  /** A header line written before `rest` is one pass of the scan. */
  lemma ScanLine(s: string, rest: seq<Byte>, h: Header)
    requires Trimmed(s)
    ensures var step := HeaderLine(s, h);
      ScanHeader(LineBytes(s) + rest, h) ==
        if step.Err? then Raised(step.error)
        else if step.value.1 then Done((step.value.0, rest))
        else ScanHeader(rest, step.value.0)
  {
    LineTextAt(s, rest);
    ScanStep(LineBytes(s) + rest, s, h);
    PassStep(s, h, rest);
  }

  /** One pass of the scan over a line whose text is `s`. */
  lemma ScanStep(rest: seq<Byte>, s: string, h: Header)
    requires |rest| > 0 && LineText(rest) == Some(s)
    ensures ScanHeader(rest, h) == Pass(s, h, rest[LineEnd(rest, 0)..])
  {
  }

  /** A pass ends the scan on an error or on `end_header`, and otherwise goes on with the new state. */
  lemma PassStep(s: string, h: Header, next: seq<Byte>)
    ensures var step := HeaderLine(s, h);
      Pass(s, h, next) ==
        if step.Err? then Raised(step.error)
        else if step.value.1 then Done((step.value.0, next))
        else ScanHeader(next, step.value.0)
  {
  }

  /** A line written before `rest` is read back as its text, and the scan goes on at `rest`. */
  lemma LineTextAt(s: string, rest: seq<Byte>)
    requires Trimmed(s)
    ensures var data := LineBytes(s) + rest;
      |data| > 0 && LineEnd(data, 0) == |s| + 1 && LineText(data) == Some(s) && data[|s| + 1..] == rest
  {
    LineAt(s, rest);
    StripLine(s);
  }

  /** The `format` line sets the mode and the byte order that the format token names. */
  lemma FormatStep(h: Header)
    requires !h.binary ==> !h.little
    ensures HeaderLine(FormatLine(h), Initial) == Ok((Initial.(binary := h.binary, little := h.little), false))
  {
    FormatTokens(h);
    FormatFlags(h);
  }

  lemma FormatTokens(h: Header)
    ensures StartsWith(FormatLine(h), "format")
    ensures Split(FormatLine(h)) == ["format", FormatToken(h), "1.0"]
  {
    LiteralTexts();
    assert IsToken(FormatToken(h));
    SplitJoin(["format", FormatToken(h), "1.0"]);
  }

  lemma FormatFlags(h: Header)
    ensures Contains(FormatToken(h), "binary") == h.binary
    ensures Contains(FormatToken(h), "little") == (h.binary && h.little)
  {
    var t := FormatToken(h);
    if h.binary {
      assert OccursAt(t, "binary", 0);
      if h.little {
        assert OccursAt(t, "little", 7);
      } else {
        NoLetter(t, 'l', "little");
      }
    } else {
      assert |t| < 6;
    }
  }

  /** A text without the letter `c` contains no text that starts with `c`. */
  lemma NoLetter(t: string, c: char, p: string)
    requires |p| > 0 && p[0] == c && forall i :: 0 <= i < |t| ==> t[i] != c
    ensures !Contains(t, p)
  {
    forall i | 0 <= i <= |t| - |p| ensures !OccursAt(t, p, i) {
      assert t[i] != c;
      assert t[i..i + |p|][0] == t[i];
    }
  }

  /** The `element vertex` line sets the count to its last token. */
  lemma ElementStep(h: Header, n: int)
    ensures HeaderLine(ElementLine(n), h) == Ok((h.(count := n), false))
  {
    ElementTokens(n);
    NotPrefixAt(ElementLine(n), "format", 0);
    ParseIntShow(n);
  }

  lemma ElementTokens(n: int)
    ensures ElementLine(n)[0] == 'e' && StartsWith(ElementLine(n), "element vertex")
    ensures Split(ElementLine(n)) == ["element", "vertex", Show(n)]
  {
    LiteralTexts();
    ShowToken(n);
    SplitJoin(["element", "vertex", Show(n)]);
    assert ElementLine(n)[..14] == "element vertex";
  }

  /** A `property` line appends its declaration. */
  lemma PropertyStep(p: Prop, h: Header)
    requires IsAsciiToken(p.kind) && IsAsciiToken(p.name)
    ensures HeaderLine(PropertyLine(p), h) == Ok((h.(props := h.props + [p]), false))
  {
    PropertyTokens(p);
    NotPrefixAt(PropertyLine(p), "format", 0);
    NotPrefixAt(PropertyLine(p), "element vertex", 0);
  }

  lemma PropertyTokens(p: Prop)
    requires IsAsciiToken(p.kind) && IsAsciiToken(p.name)
    ensures PropertyLine(p)[0] == 'p' && StartsWith(PropertyLine(p), "property")
    ensures Split(PropertyLine(p)) == ["property", p.kind, p.name]
  {
    LiteralTexts();
    SplitJoin(["property", p.kind, p.name]);
    assert PropertyLine(p)[..8] == "property";
  }
}
