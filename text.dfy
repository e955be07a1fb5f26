/**
 * The text handling of the PLY reader: `bytes.decode('ascii')`, `str.strip()`,
 * `str.split()`, `str.startswith`, the substring test `p in s` and `int()`,
 * each as Python defines it for ASCII text. Python's whitespace in ASCII is
 * the space, the five control characters tab to carriage return and the four
 * separators 0x1c to 0x1f.
 */
module Text {
  import opened Wrappers
  import opened Bytes

  predicate IsSpace(c: char)
  {
    var k := c as int;
    k == 32 || 9 <= k <= 13 || 28 <= k <= 31
  }

  predicate NoSpace(s: string)
  {
    forall i :: 0 <= i < |s| ==> !IsSpace(s[i])
  }

  predicate AllSpace(s: string)
  {
    forall i :: 0 <= i < |s| ==> IsSpace(s[i])
  }

  /** `bytes.decode('ascii')`: one character per byte, failing on any byte above 127. */
  function DecodeAscii(bs: seq<Byte>): (r: Option<string>)
    ensures r.Some? ==> |r.value| == |bs|
  {
    if |bs| == 0 then Some("")
    else if bs[0] >= 128 then None
    else
      var rest := DecodeAscii(bs[1..]);
      if rest.None? then None else Some([bs[0] as char] + rest.value)
  }

  /** The decode succeeds exactly when every byte is below 128, and then each character is its byte. */
  lemma {:induction false} DecodeAsciiChars(bs: seq<Byte>)
    ensures DecodeAscii(bs).Some? <==> forall i :: 0 <= i < |bs| ==> bs[i] < 128
    ensures DecodeAscii(bs).Some? ==> forall i :: 0 <= i < |bs| ==> DecodeAscii(bs).value[i] as int == bs[i]
  {
    if |bs| > 0 {
      DecodeAsciiChars(bs[1..]);
      assert forall i :: 1 <= i < |bs| ==> bs[1..][i - 1] == bs[i];
    }
  }

  /** The text with its leading whitespace removed. */
  function TrimLeft(s: string): (r: string)
    ensures |r| <= |s|
    ensures |r| == 0 || !IsSpace(r[0])
  {
    if |s| == 0 || !IsSpace(s[0]) then s else TrimLeft(s[1..])
  }

  /** The text with its trailing whitespace removed. */
  function TrimRight(s: string): (r: string)
    ensures |r| <= |s|
    ensures |r| == 0 || !IsSpace(r[|r| - 1])
  {
    if |s| == 0 || !IsSpace(s[|s| - 1]) then s else TrimRight(s[..|s| - 1])
  }

  /** `str.strip()`. */
  function Strip(s: string): (r: string)
    ensures |r| <= |s|
    ensures |r| == 0 || (!IsSpace(r[0]) && !IsSpace(r[|r| - 1]))
  {
    TrimRightPrefix(TrimLeft(s));
    TrimRight(TrimLeft(s))
  }

  lemma {:induction false} TrimRightPrefix(s: string)
    ensures TrimRight(s) == s[..|TrimRight(s)|]
  {
    if |s| > 0 && IsSpace(s[|s| - 1]) {
      TrimRightPrefix(s[..|s| - 1]);
    }
  }

  /** Leading whitespace is all that `TrimLeft` removes. */
  lemma {:induction false} TrimLeftPadded(p: string, t: string)
    requires AllSpace(p) && (|t| == 0 || !IsSpace(t[0]))
    ensures TrimLeft(p + t) == t
  {
    if |p| > 0 {
      assert (p + t)[1..] == p[1..] + t;
      TrimLeftPadded(p[1..], t);
    } else {
      assert p + t == t;
    }
  }

  /** Trailing whitespace is all that `TrimRight` removes. */
  lemma {:induction false} TrimRightPadded(t: string, q: string)
    requires AllSpace(q) && (|t| == 0 || !IsSpace(t[|t| - 1]))
    ensures TrimRight(t + q) == t
  {
    if |q| > 0 {
      assert (t + q)[..|t + q| - 1] == t + q[..|q| - 1];
      TrimRightPadded(t, q[..|q| - 1]);
    } else {
      assert t + q == t;
    }
  }

  /** Strip removes exactly the whitespace around text that neither starts nor ends with whitespace. */
  lemma StripPadded(p: string, t: string, q: string)
    requires AllSpace(p) && AllSpace(q)
    requires |t| == 0 || (!IsSpace(t[0]) && !IsSpace(t[|t| - 1]))
    ensures Strip(p + t + q) == t
  {
    if |t| == 0 {
      assert p + t + q == p + q;
      assert AllSpace(p + q);
      TrimLeftPadded(p + q, "");
      assert p + q + "" == p + q;
    } else {
      assert p + t + q == p + (t + q);
      TrimLeftPadded(p, t + q);
      TrimRightPadded(t, q);
    }
  }

  /** The length of the token at the start of `t`: up to the first whitespace. */
  function TokenLength(t: string): (k: nat)
    ensures k <= |t| && forall i :: 0 <= i < k ==> !IsSpace(t[i])
    ensures k < |t| ==> IsSpace(t[k])
  {
    if |t| == 0 || IsSpace(t[0]) then 0 else TokenLength(t[1..]) + 1
  }

  /** A token of `str.split()`: non-empty, without whitespace. */
  predicate IsToken(s: string)
  {
    |s| > 0 && NoSpace(s)
  }

  /** `str.split()`: the maximal runs of non-whitespace characters, in order. */
  function Split(s: string): seq<string>
    decreases |s|
  {
    var t := TrimLeft(s);
    if |t| == 0 then []
    else
      var k := TokenLength(t);
      [t[..k]] + Split(t[k..])
  }

  /** Every piece of a split is a token. */
  lemma {:induction false} SplitTokens(s: string)
    ensures forall i :: 0 <= i < |Split(s)| ==> IsToken(Split(s)[i])
    decreases |s|
  {
    var t := TrimLeft(s);
    if |t| > 0 {
      var k := TokenLength(t);
      LeadingToken(t);
      SplitTokens(t[k..]);
    }
  }

  /** Text that does not start with whitespace starts with a token. */
  lemma LeadingToken(t: string)
    requires |t| > 0 && !IsSpace(t[0])
    ensures 0 < TokenLength(t) && IsToken(t[..TokenLength(t)])
  {
    var k := TokenLength(t);
    var token := t[..k];
    assert forall i :: 0 <= i < k ==> token[i] == t[i];
  }

  /** The tokens written with one space between each two. */
  function Join(ts: seq<string>): string
  {
    if |ts| == 0 then ""
    else if |ts| == 1 then ts[0]
    else ts[0] + " " + Join(ts[1..])
  }

  /** Splitting tokens written out with spaces gives the tokens back. */
  lemma {:induction false} SplitJoin(ts: seq<string>)
    requires forall i :: 0 <= i < |ts| ==> IsToken(ts[i])
    ensures Split(Join(ts)) == ts
  {
    if |ts| == 1 {
      SplitToken(ts[0]);
    } else if |ts| > 1 {
      var j := Join(ts[1..]);
      SplitJoin(ts[1..]);
      SplitCons(ts[0], j);
      assert Join(ts) == ts[0] + " " + j;
      assert ts == [ts[0]] + ts[1..];
    }
  }

  /** A single token splits into itself. */
  lemma SplitToken(s: string)
    requires IsToken(s)
    ensures Split(s) == [s]
  {
    assert TrimLeft(s) == s;
    TokenAll(s);
    assert s[..|s|] == s;
    assert Split(s[|s|..]) == [];
  }

  /** A token, a space and the rest split into the token and the rest's tokens. */
  lemma SplitCons(s: string, rest: string)
    requires IsToken(s)
    ensures Split(s + " " + rest) == [s] + Split(rest)
  {
    var j := s + " " + rest;
    assert TrimLeft(j) == j;
    assert j[..|s|] == s;
    TokenPrefix(j, s);
    var tail := j[|s|..];
    assert tail == [' '] + rest;
    assert tail[1..] == rest;
    assert TrimLeft(tail) == TrimLeft(rest);
  }

  lemma TokenAll(s: string)
    requires NoSpace(s)
    ensures TokenLength(s) == |s|
  {
  }

  lemma TokenPrefix(j: string, s: string)
    requires IsToken(s) && |s| < |j| && j[..|s|] == s && IsSpace(j[|s|])
    ensures TokenLength(j) == |s|
  {
    var k := TokenLength(j);
  }

  predicate StartsWith(s: string, p: string)
  {
    |p| <= |s| && s[..|p|] == p
  }

  /** `p` occurs in `s` starting at `i`. */
  predicate OccursAt(s: string, p: string, i: int)
  {
    0 <= i <= |s| - |p| && s[i..i + |p|] == p
  }

  /** The substring test `p in s`. */
  predicate Contains(s: string, p: string)
  {
    exists i :: 0 <= i <= |s| - |p| && OccursAt(s, p, i)
  }

  // ------------------------------------------------------------------ int()

  predicate IsDigit(c: char)
  {
    '0' <= c <= '9'
  }

  /** Digits with single underscores between them, as `int()` accepts. */
  predicate IsDigitGroup(s: string)
  {
    && |s| > 0 && IsDigit(s[0]) && IsDigit(s[|s| - 1])
    && (forall i :: 0 <= i < |s| ==> IsDigit(s[i]) || s[i] == '_')
    && (forall i :: 0 <= i < |s| - 1 ==> IsDigit(s[i]) || IsDigit(s[i + 1]))
  }

  /** The decimal value of the digits, underscores skipped. */
  function DigitsValue(s: string): (v: nat)
  {
    if |s| == 0 then 0
    else
      var c := s[|s| - 1];
      if IsDigit(c) then 10 * DigitsValue(s[..|s| - 1]) + (c as int - '0' as int)
      else DigitsValue(s[..|s| - 1])
  }

  /** `int(tok)`: optional whitespace around an optional sign and a digit group; `None` where it raises. */
  function ParseInt(tok: string): (r: Option<int>)
  {
    var t := Strip(tok);
    if |t| > 0 && (t[0] == '+' || t[0] == '-') then
      var v: int := DigitsValue(t[1..]);
      if IsDigitGroup(t[1..]) then Some(if t[0] == '-' then -v else v) else None
    else if IsDigitGroup(t) then Some(DigitsValue(t))
    else None
  }

  /** The decimal digits of `n`, without leading zeros. */
  function ShowNat(n: nat): (s: string)
    ensures |s| > 0 && forall i :: 0 <= i < |s| ==> IsDigit(s[i])
  {
    var d := ['0' + (n % 10) as char];
    if n < 10 then d else ShowNat(n / 10) + d
  }

  /** `str(n)`. */
  function Show(n: int): string
  {
    if n < 0 then "-" + ShowNat(-n) else ShowNat(n)
  }

  lemma {:induction false} ShowNatValue(n: nat)
    ensures IsDigitGroup(ShowNat(n)) && DigitsValue(ShowNat(n)) == n
  {
    var s := ShowNat(n);
    if n >= 10 {
      ShowNatValue(n / 10);
      assert s[..|s| - 1] == ShowNat(n / 10);
    }
  }

  /** `int(str(n)) == n`. */
  lemma ParseIntShow(n: int)
    ensures ParseInt(Show(n)) == Some(n)
  {
    if n < 0 {
      var body := ShowNat(-n);
      ShowNatValue(-n);
      assert DigitsValue(body) == -n;
      ParseNegative(body);
      assert Show(n) == "-" + body;
    } else {
      var body := ShowNat(n);
      ShowNatValue(n);
      ParseDigits(body);
      assert Show(n) == body;
      assert ParseInt(body) == Some(n);
    }
  }

  lemma ParseDigits(body: string)
    requires IsDigitGroup(body)
    ensures ParseInt(body) == Some(DigitsValue(body))
  {
    StripNoSpaceEnds(body);
  }

  lemma ParseNegative(body: string)
    requires IsDigitGroup(body)
    ensures ParseInt("-" + body) == Some(-(DigitsValue(body) as int))
  {
    var t := "-" + body;
    assert t[1..] == body && t[0] == '-';
    StripNoSpaceEnds(t);
    var v: int := DigitsValue(body);
    assert ParseInt(t) == Some(-v);
  }

  /** Text that starts and ends with non-whitespace is its own strip. */
  lemma StripNoSpaceEnds(s: string)
    requires |s| > 0 && !IsSpace(s[0]) && !IsSpace(s[|s| - 1])
    ensures Strip(s) == s
  {
    StripPadded("", s, "");
    assert "" + s + "" == s;
  }
}
