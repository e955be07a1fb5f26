/**
 * The end of `load_ply_gaussian_splats`: colours from the degree-0
 * spherical-harmonic coefficients, the conversion of the named lists to
 * arrays, the `scale` and `rotation` groups, and the whole load.
 */
module PlyLoader {
  import opened Wrappers
  import opened Bytes
  import opened OrderedMaps
  import opened ByteFiles
  import opened PlyHeader
  import opened PlyValues
  import opened PlyRecords
  import opened PlyGather

  // ------------------------------------------------------------- colours

  /** The colour of every splat when the file has no DC coefficients. */
  const Gray: seq<real> := [0.5, 0.5, 0.5]

  /** `'f_dc_0' in properties and 'f_dc_1' in properties and 'f_dc_2' in properties`. */
  predicate HasSh(cols: Columns)
  {
    "f_dc_0" in cols.entries && "f_dc_1" in cols.entries && "f_dc_2" in cols.entries
  }

  /** `sigmoid(x) = 1 / (1 + exp(-x))`: `None` where `math.exp` overflows. */
  function Sigmoid(x: real, num: Numerics): Option<real>
  {
    match num.exp(-x)
    case None => None
    case Some(e) => Some(1.0 / (1.0 + e))
  }

  /** The logistic of a real lands in (0, 1]: 1 exactly where `exp` underflows to 0. */
  lemma SigmoidRange(x: real, num: Numerics)
    requires Sigmoid(x, num).Some?
    ensures 0.0 < Sigmoid(x, num).value <= 1.0
    ensures Sigmoid(x, num).value == 1.0 <==> num.exp(-x).value == 0.0
  {
    var e := num.exp(-x).value;
    assert Sigmoid(x, num).value * (1.0 + e) == 1.0;
  }

  /** `properties['f_dc_c'][i]` for the three channels: `IndexError` where a list is too short. */
  function Coefficients(cols: Columns, i: nat): Result<seq<real>, PlyError>
    requires HasSh(cols)
  {
    var r, g, b := cols.entries["f_dc_0"], cols.entries["f_dc_1"], cols.entries["f_dc_2"];
    if i < |r| && i < |g| && i < |b| then Ok([r[i], g[i], b[i]]) else Err(MissingValue)
  }

  /** `[sigmoid(sh_r), sigmoid(sh_g), sigmoid(sh_b)]`. */
  function ColorOf(sh: seq<real>, num: Numerics): Result<seq<real>, PlyError>
    requires |sh| == 3
  {
    var r, g, b := Sigmoid(sh[0], num), Sigmoid(sh[1], num), Sigmoid(sh[2], num);
    if r.Some? && g.Some? && b.Some? then Ok([r.value, g.value, b.value]) else Err(Overflow)
  }

  /** The first `i` passes of the colour loop. */
  function ColorsUpTo(cols: Columns, num: Numerics, i: nat): Result<seq<seq<real>>, PlyError>
    requires HasSh(cols)
  {
    if i == 0 then Ok([])
    else
      match ColorsUpTo(cols, num, i - 1)
      case Err(e) => Err(e)
      case Ok(cs) =>
        match Coefficients(cols, i - 1)
        case Err(e) => Err(e)
        case Ok(sh) =>
          match ColorOf(sh, num)
          case Err(e) => Err(e)
          case Ok(c) => Ok(cs + [c])
  }

  /** The colours of `n` splats: the logistic of the DC coefficients when all three lists exist, gray otherwise. */
  function Colors(cols: Columns, n: nat, num: Numerics): Result<seq<seq<real>>, PlyError>
  {
    if HasSh(cols) then ColorsUpTo(cols, num, n) else Ok(seq(n, _ => Gray))
  }

  /** The logistic of channel `c` of splat `i`, when the list and `exp` allow it. */
  predicate ChannelOk(cols: Columns, num: Numerics, i: nat, c: nat)
    requires HasSh(cols) && c < 3
  {
    var l := cols.entries[["f_dc_0", "f_dc_1", "f_dc_2"][c]];
    i < |l| && Sigmoid(l[i], num).Some?
  }

  /**
   * Colour `k` is the logistic of splat `k`'s three coefficients, so every
   * channel lies in (0, 1]; the loop fails exactly when some channel of
   * the first `i` splats is missing or overflows.
   */
  lemma {:induction false} ColorsUpToShape(cols: Columns, num: Numerics, i: nat)
    requires HasSh(cols)
    ensures ColorsUpTo(cols, num, i).Ok? <==> forall k, c :: 0 <= k < i && 0 <= c < 3 ==> ChannelOk(cols, num, k, c)
    ensures ColorsUpTo(cols, num, i).Ok? ==>
      var cs := ColorsUpTo(cols, num, i).value;
      && |cs| == i
      && forall k :: 0 <= k < i ==>
        && (forall c :: 0 <= c < 3 ==> ChannelOk(cols, num, k, c))
        && k < |cols.entries["f_dc_0"]| && k < |cols.entries["f_dc_1"]| && k < |cols.entries["f_dc_2"]|
        && Sigmoid(cols.entries["f_dc_0"][k], num).Some?
        && Sigmoid(cols.entries["f_dc_1"][k], num).Some?
        && Sigmoid(cols.entries["f_dc_2"][k], num).Some?
        && cs[k] == [Sigmoid(cols.entries["f_dc_0"][k], num).value,
                     Sigmoid(cols.entries["f_dc_1"][k], num).value,
                     Sigmoid(cols.entries["f_dc_2"][k], num).value]
        && forall c :: 0 <= c < 3 ==> 0.0 < cs[k][c] <= 1.0
  {
    if i > 0 {
      ColorsUpToShape(cols, num, i - 1);
      var r, g, b := cols.entries["f_dc_0"], cols.entries["f_dc_1"], cols.entries["f_dc_2"];
      var k := i - 1;
      if ColorsUpTo(cols, num, k).Ok? && k < |r| && k < |g| && k < |b| {
        assert Coefficients(cols, k) == Ok([r[k], g[k], b[k]]);
        var sr, sg, sb := Sigmoid(r[k], num), Sigmoid(g[k], num), Sigmoid(b[k], num);
        if sr.Some? && sg.Some? && sb.Some? {
          SigmoidRange(r[k], num);
          SigmoidRange(g[k], num);
          SigmoidRange(b[k], num);
        } else {
          assert !ChannelOk(cols, num, k, 0) || !ChannelOk(cols, num, k, 1) || !ChannelOk(cols, num, k, 2);
        }
      } else if ColorsUpTo(cols, num, k).Ok? {
        assert !ChannelOk(cols, num, k, 0) || !ChannelOk(cols, num, k, 1) || !ChannelOk(cols, num, k, 2);
      }
    }
  }

  /** A failed colour loop is `IndexError` only when a list is shorter than the number of splats. */
  lemma {:induction false} ColorsUpToError(cols: Columns, num: Numerics, i: nat)
    requires HasSh(cols) && ColorsUpTo(cols, num, i).Err?
    ensures ColorsUpTo(cols, num, i).error == MissingValue || ColorsUpTo(cols, num, i).error == Overflow
    ensures ColorsUpTo(cols, num, i).error == MissingValue ==>
      |cols.entries["f_dc_0"]| < i || |cols.entries["f_dc_1"]| < i || |cols.entries["f_dc_2"]| < i
  {
    if ColorsUpTo(cols, num, i - 1).Err? {
      ColorsUpToError(cols, num, i - 1);
    }
  }

  /** One colour per splat, each three channels in (0, 1]: gray when the coefficients are absent. */
  lemma ColorsShape(cols: Columns, n: nat, num: Numerics)
    requires Colors(cols, n, num).Ok?
    ensures |Colors(cols, n, num).value| == n
    ensures forall k :: 0 <= k < n ==>
      |Colors(cols, n, num).value[k]| == 3 && forall c :: 0 <= c < 3 ==> 0.0 < Colors(cols, n, num).value[k][c] <= 1.0
    ensures !HasSh(cols) ==> forall k :: 0 <= k < n ==> Colors(cols, n, num).value[k] == Gray
  {
    if HasSh(cols) {
      ColorsUpToShape(cols, num, n);
    }
  }

  /** The colour loop, `colors.append(...)` once per position. */
  method DeriveColors(cols: Columns, n: nat, num: Numerics) returns (r: Result<seq<seq<real>>, PlyError>)
    ensures r == Colors(cols, n, num)
  {
    if !HasSh(cols) {
      return Ok(seq(n, _ => Gray));
    }
    var colors: seq<seq<real>> := [];
    var i := 0;
    while i < n
      invariant i <= n && ColorsUpTo(cols, num, i) == Ok(colors)
    {
      var r, g, b := cols.entries["f_dc_0"], cols.entries["f_dc_1"], cols.entries["f_dc_2"];
      if !(i < |r| && i < |g| && i < |b|) {
        ColorsErrorStays(cols, num, i + 1, n);
        return Err(MissingValue);
      }
      var sr, sg, sb := Sigmoid(r[i], num), Sigmoid(g[i], num), Sigmoid(b[i], num);
      if !(sr.Some? && sg.Some? && sb.Some?) {
        ColorsErrorStays(cols, num, i + 1, n);
        return Err(Overflow);
      }
      colors := colors + [[sr.value, sg.value, sb.value]];
      i := i + 1;
    }
    return Ok(colors);
  }

  /** Once a splat's colour fails, the rest of the loop keeps the error. */
  lemma {:induction false} ColorsErrorStays(cols: Columns, num: Numerics, k: nat, n: nat)
    requires HasSh(cols) && 0 < k <= n && ColorsUpTo(cols, num, k).Err?
    ensures ColorsUpTo(cols, num, n) == ColorsUpTo(cols, num, k)
    decreases n - k
  {
    if k < n {
      ColorsErrorStays(cols, num, k + 1, n);
    }
  }

  // ------------------------------------------------------------ positions

  /** `np.array(positions)` succeeds: every row has the length of the first. */
  predicate Rectangular(rows: seq<seq<real>>)
  {
    forall i :: 0 <= i < |rows| ==> |rows[i]| == |rows[0]|
  }

  /** When every record a reader returns has `w` values, so does every record read. */
  lemma {:induction false} RecordsWidth(read: Reader, body: seq<Byte>, i: nat, w: nat)
    requires forall rest :: read(rest).Ok? ==> |read(rest).value.0| == w
    requires VertexRecords(read, body, i).Ok?
    ensures forall k :: 0 <= k < |VertexRecords(read, body, i).value.0| ==> |VertexRecords(read, body, i).value.0[k]| == w
  {
    if i > 0 {
      RecordsWidth(read, body, i - 1, w);
    }
  }

  /** In binary mode every record has one value per property, so the positions always form an array. */
  lemma BinaryRectangular(h: Header, num: Numerics, body: seq<Byte>, i: nat)
    requires h.binary && Progress(h.props, RecordReader(h, num), body, i).Ok?
    ensures Rectangular(Progress(h.props, RecordReader(h, num), body, i).value.positions)
  {
    var read := RecordReader(h, num);
    var ks := KindsOf(h.props);
    forall rest | read(rest).Ok? ensures |read(rest).value.0| == |h.props| {
      BinaryLayout(ks, h.little, rest, num, |ks|);
    }
    ProgressRecords(h.props, read, body, i);
    RecordsWidth(read, body, i, |h.props|);
    var g := Progress(h.props, read, body, i).value;
    forall k | 0 <= k < |g.positions| ensures |g.positions[k]| == Min(3, |h.props|) {
      ProgressPosition(h.props, read, body, i, k);
    }
  }

  // ------------------------------------------------------------ attributes

  /** A value of the returned `properties` dict: a list, a one-dimensional array, or a stacked array. */
  datatype Attr = List(values: seq<real>) | Array(values: seq<real>) | Matrix(rows: seq<seq<real>>)

  type Attrs = OMap<string, Attr>

  /** The names converted to arrays, in the order they are converted. */
  const ArrayKeys: seq<string> := ["opacity", "scale_0", "scale_1", "scale_2", "rot_0", "rot_1", "rot_2", "rot_3"]
  const ScaleKeys: seq<string> := ["scale_0", "scale_1", "scale_2"]
  const RotationKeys: seq<string> := ["rot_0", "rot_1", "rot_2", "rot_3"]

  /** The `properties` dict as the vertex loop leaves it: every value a list. */
  function Lists(cols: Columns): (m: Attrs)
    requires Valid(cols)
    ensures Valid(m) && m.keys == cols.keys
    ensures forall k :: k in m.entries <==> k in cols.entries
    ensures forall k :: k in cols.entries ==> m.entries[k] == List(cols.entries[k])
  {
    OMap(cols.keys, map k | k in cols.entries :: List(cols.entries[k]))
  }

  /** `np.array(values)`. */
  function ToArray(a: Attr): Attr
  {
    match a
    case List(v) => Array(v)
    case Array(v) => Array(v)
    case Matrix(rows) => Matrix(rows)
  }

  /** The first `k` passes of the conversion loop over `keys`: each name that is present becomes an array. */
  function ArraysUpTo(m: Attrs, keys: seq<string>, k: nat): (r: Attrs)
    requires Valid(m) && k <= |keys|
    ensures Valid(r)
  {
    if k == 0 then m
    else
      var p := ArraysUpTo(m, keys, k - 1);
      var key := keys[k - 1];
      if key in p.entries then Insert(p, key, ToArray(p.entries[key])) else p
  }

  /** No value is a stacked array. */
  predicate NoMatrix(m: Attrs)
  {
    forall n :: n in m.entries ==> !m.entries[n].Matrix?
  }

  /**
   * The conversion keeps every key where it was and converts exactly the
   * names it is given (converting twice is converting once).
   */
  lemma ArraysShape(m: Attrs, keys: seq<string>, k: nat)
    requires Valid(m) && k <= |keys|
    ensures ArraysUpTo(m, keys, k).keys == m.keys
    ensures forall n :: n in ArraysUpTo(m, keys, k).entries <==> n in m.entries
    ensures forall n :: n in m.entries ==>
      ArraysUpTo(m, keys, k).entries[n] == if n in keys[..k] then ToArray(m.entries[n]) else m.entries[n]
  {
    ArraysKeys(m, keys, k);
    ArraysValues(m, keys, k);
    forall n ensures Listed(keys, k, n) <==> n in keys[..k] {
      ListedIn(keys, k, n);
    }
  }

  lemma {:induction false} ArraysKeys(m: Attrs, keys: seq<string>, k: nat)
    requires Valid(m) && k <= |keys|
    ensures ArraysUpTo(m, keys, k).keys == m.keys
    ensures forall n :: n in ArraysUpTo(m, keys, k).entries <==> n in m.entries
  {
    if k > 0 {
      ArraysKeys(m, keys, k - 1);
      ArraysStep(m, keys, k);
    }
  }

  lemma {:induction false} ArraysValues(m: Attrs, keys: seq<string>, k: nat)
    requires Valid(m) && k <= |keys|
    ensures forall n :: n in m.entries ==>
      && n in ArraysUpTo(m, keys, k).entries
      && ArraysUpTo(m, keys, k).entries[n] == if Listed(keys, k, n) then ToArray(m.entries[n]) else m.entries[n]
  {
    if k > 0 {
      ArraysValues(m, keys, k - 1);
      ArraysStep(m, keys, k);
    }
  }

  /** `n` is one of the first `k` of `keys`. */
  predicate Listed(keys: seq<string>, k: nat, n: string)
    requires k <= |keys|
  {
    k > 0 && (keys[k - 1] == n || Listed(keys, k - 1, n))
  }

  lemma {:induction false} ListedIn(keys: seq<string>, k: nat, n: string)
    requires k <= |keys|
    ensures Listed(keys, k, n) <==> n in keys[..k]
  {
    if k > 0 {
      ListedIn(keys, k - 1, n);
      assert keys[..k] == keys[..k - 1] + [keys[k - 1]];
    }
  }

  /** One pass of the conversion loop. */
  lemma ArraysStep(m: Attrs, keys: seq<string>, k: nat)
    requires Valid(m) && 0 < k <= |keys|
    ensures var p, r := ArraysUpTo(m, keys, k - 1), ArraysUpTo(m, keys, k);
      && r.keys == p.keys
      && (forall n :: n in r.entries <==> n in p.entries)
      && forall n :: n in p.entries ==> r.entries[n] == if n == keys[k - 1] then ToArray(p.entries[n]) else p.entries[n]
  {
  }

  /** The conversion loop over the eight names. */
  method ConvertArrays(m: Attrs) returns (r: Attrs)
    requires Valid(m)
    ensures r == ArraysUpTo(m, ArrayKeys, |ArrayKeys|)
  {
    r := m;
    for k := 0 to |ArrayKeys|
      invariant r == ArraysUpTo(m, ArrayKeys, k)
    {
      var key := ArrayKeys[k];
      if key in r.entries {
        r := Insert(r, key, ToArray(r.entries[key]));
      }
    }
  }

  /** `np.column_stack` of one-dimensional columns: `ValueError` unless they share one length. */
  function ColumnStack(cs: seq<seq<real>>): Result<seq<seq<real>>, PlyError>
    requires |cs| > 0
  {
    if exists c :: 0 <= c < |cs| && |cs[c]| != |cs[0]| then Err(ShapeMismatch)
    else Ok(seq(|cs[0]|, i requires 0 <= i < |cs[0]| => seq(|cs|, c requires 0 <= c < |cs| => cs[c][i])))
  }

  /** Column `c` of a stacked array. */
  function ColumnOf(rows: seq<seq<real>>, c: nat): seq<real>
    requires forall i :: 0 <= i < |rows| ==> c < |rows[i]|
  {
    seq(|rows|, i requires 0 <= i < |rows| => rows[i][c])
  }

  /** Stacking succeeds exactly on columns of one length, and each column of the result is the column stacked. */
  lemma StackRoundTrip(cs: seq<seq<real>>)
    requires |cs| > 0
    ensures ColumnStack(cs).Ok? <==> forall c :: 0 <= c < |cs| ==> |cs[c]| == |cs[0]|
    ensures ColumnStack(cs).Err? ==> ColumnStack(cs).error == ShapeMismatch
    ensures ColumnStack(cs).Ok? ==>
      var rows := ColumnStack(cs).value;
      && |rows| == |cs[0]|
      && (forall i :: 0 <= i < |rows| ==> |rows[i]| == |cs|)
      && forall c :: 0 <= c < |cs| ==> ColumnOf(rows, c) == cs[c]
  {
  }

  /** All of `keys` are present. */
  predicate Present(m: Attrs, keys: seq<string>)
  {
    forall k :: k in keys ==> k in m.entries
  }

  /** None of `keys` holds a stacked array. */
  predicate Flat(m: Attrs, keys: seq<string>)
  {
    forall k :: k in keys && k in m.entries ==> !m.entries[k].Matrix?
  }

  /** The values under `keys`, in order. */
  function Stacked(m: Attrs, keys: seq<string>): (cs: seq<seq<real>>)
    requires Present(m, keys) && Flat(m, keys)
    ensures |cs| == |keys|
  {
    seq(|keys|, c requires 0 <= c < |keys| => m.entries[keys[c]].values)
  }

  /** `if all(k in properties for k in keys): properties[name] = np.column_stack([...])`. */
  function Group(m: Attrs, name: string, keys: seq<string>): (r: Result<Attrs, PlyError>)
    requires Valid(m) && |keys| > 0 && Flat(m, keys)
    ensures r.Ok? ==> Valid(r.value)
  {
    if Present(m, keys) then
      match ColumnStack(Stacked(m, keys))
      case Err(e) => Err(e)
      case Ok(rows) => Ok(Insert(m, name, Matrix(rows)))
    else Ok(m)
  }

  /**
   * Grouping adds (or replaces) `name` exactly when all of `keys` are
   * present, with one row per index whose entries are the grouped values
   * in order; it fails exactly when those values differ in length, and
   * leaves every other name untouched.
   */
  lemma GroupShape(m: Attrs, name: string, keys: seq<string>)
    requires Valid(m) && |keys| > 0 && Flat(m, keys)
    ensures var r := Group(m, name, keys);
      && (r.Err? <==> Present(m, keys) && exists c :: 0 <= c < |keys| && |Stacked(m, keys)[c]| != |Stacked(m, keys)[0]|)
      && (r.Err? ==> r.error == ShapeMismatch)
      && (r.Ok? && !Present(m, keys) ==> r.value == m)
      && (r.Ok? && Present(m, keys) ==>
          && name in r.value.entries && r.value.entries[name].Matrix?
          && var rows := r.value.entries[name].rows;
          && |rows| == |m.entries[keys[0]].values|
          && (forall i :: 0 <= i < |rows| ==> |rows[i]| == |keys|)
          && (forall c :: 0 <= c < |keys| ==> ColumnOf(rows, c) == m.entries[keys[c]].values))
      && (r.Ok? ==> r.value.keys == (if name in m.entries || !Present(m, keys) then m.keys else m.keys + [name]))
      && (r.Ok? ==> forall n :: n != name ==> (n in r.value.entries <==> n in m.entries))
      && (r.Ok? ==> forall n :: n != name && n in m.entries ==> r.value.entries[n] == m.entries[n])
  {
    if Present(m, keys) {
      StackRoundTrip(Stacked(m, keys));
    }
  }

  /** `properties` after the conversion loop. */
  function Converted(cols: Columns): (m: Attrs)
    requires Valid(cols)
    ensures Valid(m)
  {
    ArraysUpTo(Lists(cols), ArrayKeys, |ArrayKeys|)
  }

  /** `properties` after the `scale` group. */
  function Scaled(cols: Columns): (r: Result<Attrs, PlyError>)
    requires Valid(cols)
    ensures r.Ok? ==> Valid(r.value)
  {
    ConvertedValues(cols);
    Group(Converted(cols), "scale", ScaleKeys)
  }

  /** The returned `properties`: the lists, the eight names as arrays, then the two groups. */
  function Attributes(cols: Columns): Result<Attrs, PlyError>
    requires Valid(cols)
  {
    match Scaled(cols)
    case Err(e) => Err(e)
    case Ok(m1) =>
      ScaledValues(cols);
      Group(m1, "rotation", RotationKeys)
  }

  /** After the conversion each list keeps its values, and exactly the eight names hold arrays. */
  lemma ConvertedValues(cols: Columns)
    requires Valid(cols)
    ensures var m := ArraysUpTo(Lists(cols), ArrayKeys, |ArrayKeys|);
      && m.keys == cols.keys
      && (forall n :: n in m.entries <==> n in cols.entries)
      && NoMatrix(m) && Flat(m, ScaleKeys)
      && forall n :: n in cols.entries ==>
        && !m.entries[n].Matrix? && m.entries[n].values == cols.entries[n]
        && (m.entries[n].Array? <==> n in ArrayKeys)
  {
    ArraysShape(Lists(cols), ArrayKeys, |ArrayKeys|);
    assert ArrayKeys[..|ArrayKeys|] == ArrayKeys;
  }

  /** All of `keys` have lists. */
  predicate Declared(cols: Columns, keys: seq<string>)
  {
    forall k :: k in keys ==> k in cols.entries
  }

  /** The lists of `keys` share one length. */
  predicate Uniform(cols: Columns, keys: seq<string>)
    requires Declared(cols, keys) && |keys| > 0
  {
    forall c :: 0 <= c < |keys| ==> |cols.entries[keys[c]]| == |cols.entries[keys[0]]|
  }

  /** `rows` stacks the lists of `keys`, column by column. */
  predicate StacksLists(rows: seq<seq<real>>, cols: Columns, keys: seq<string>)
    requires Declared(cols, keys) && |keys| > 0
  {
    && |rows| == |cols.entries[keys[0]]|
    && (forall i :: 0 <= i < |rows| ==> |rows[i]| == |keys|)
    && forall c :: 0 <= c < |keys| ==> ColumnOf(rows, c) == cols.entries[keys[c]]
  }

  /** Grouping one set of names on the converted lists, in terms of the lists. */
  lemma GroupLists(m: Attrs, cols: Columns, name: string, keys: seq<string>)
    requires Valid(m) && |keys| > 0 && Flat(m, keys)
    requires forall k :: k in keys ==> (k in m.entries <==> k in cols.entries)
    requires forall k :: k in keys && k in cols.entries ==> m.entries[k].values == cols.entries[k]
    ensures var r := Group(m, name, keys);
      && (r.Err? <==> Declared(cols, keys) && !Uniform(cols, keys))
      && (r.Err? ==> r.error == ShapeMismatch)
      && (r.Ok? && Declared(cols, keys) ==>
          && name in r.value.entries && r.value.entries[name].Matrix?
          && StacksLists(r.value.entries[name].rows, cols, keys))
      && (r.Ok? && !Declared(cols, keys) ==> r.value == m)
      && (r.Ok? ==> r.value.keys == (if name in m.entries || !Declared(cols, keys) then m.keys else m.keys + [name]))
      && (r.Ok? ==> forall n :: n != name ==> (n in r.value.entries <==> n in m.entries))
      && (r.Ok? ==> forall n :: n != name && n in m.entries ==> r.value.entries[n] == m.entries[n])
  {
    GroupShape(m, name, keys);
    assert Present(m, keys) <==> Declared(cols, keys);
    if Declared(cols, keys) {
      var cs := Stacked(m, keys);
      assert forall c :: 0 <= c < |keys| ==> cs[c] == cols.entries[keys[c]];
    }
  }

  /** The `scale` group, in terms of the lists. */
  lemma ScaledShape(cols: Columns)
    requires Valid(cols)
    ensures Scaled(cols).Err? <==> Declared(cols, ScaleKeys) && !Uniform(cols, ScaleKeys)
    ensures Scaled(cols).Err? ==> Scaled(cols).error == ShapeMismatch
    ensures Scaled(cols).Ok? && Declared(cols, ScaleKeys) ==>
      "scale" in Scaled(cols).value.entries && Scaled(cols).value.entries["scale"].Matrix? &&
      StacksLists(Scaled(cols).value.entries["scale"].rows, cols, ScaleKeys)
    ensures Scaled(cols).Ok? ==>
      ("scale" in Scaled(cols).value.entries <==> "scale" in cols.entries || Declared(cols, ScaleKeys))
  {
    ConvertedValues(cols);
    GroupLists(Converted(cols), cols, "scale", ScaleKeys);
  }

  /** The `scale` group leaves every other name as the conversion left it. */
  lemma ScaledKeeps(cols: Columns)
    requires Valid(cols)
    ensures Scaled(cols).Ok? ==> forall n :: n != "scale" ==> (n in Scaled(cols).value.entries <==> n in cols.entries)
    ensures Scaled(cols).Ok? ==> forall n :: n != "scale" && n in cols.entries ==>
      && n in Scaled(cols).value.entries && n in Converted(cols).entries
      && Scaled(cols).value.entries[n] == Converted(cols).entries[n]
  {
    ConvertedValues(cols);
    GroupShape(Converted(cols), "scale", ScaleKeys);
  }

  /** The rotation components are still one-dimensional after the `scale` group. */
  lemma ScaledValues(cols: Columns)
    requires Valid(cols)
    ensures Scaled(cols).Ok? ==> Flat(Scaled(cols).value, RotationKeys)
  {
    if Scaled(cols).Ok? {
      ConvertedValues(cols);
      ScaledKeeps(cols);
      assert "scale" !in RotationKeys;
    }
  }

  /** The `rotation` group, in terms of the lists. */
  lemma RotationLists(cols: Columns)
    requires Valid(cols) && Scaled(cols).Ok?
    ensures var s := Scaled(cols).value;
      && Flat(s, RotationKeys)
      && (forall k :: k in RotationKeys ==> (k in s.entries <==> k in cols.entries))
      && (forall k :: k in RotationKeys && k in cols.entries ==> s.entries[k].values == cols.entries[k])
  {
    ConvertedValues(cols);
    ScaledKeeps(cols);
    ScaledValues(cols);
    assert "scale" !in RotationKeys;
  }

  /** Loading fails with `ValueError` exactly when a group's components are all declared but differ in length. */
  lemma AttributesOutcome(cols: Columns)
    requires Valid(cols)
    ensures Attributes(cols).Err? <==>
      (Declared(cols, ScaleKeys) && !Uniform(cols, ScaleKeys)) || (Declared(cols, RotationKeys) && !Uniform(cols, RotationKeys))
    ensures Attributes(cols).Err? ==> Attributes(cols).error == ShapeMismatch
  {
    ScaledShape(cols);
    if Scaled(cols).Ok? {
      RotationLists(cols);
      GroupLists(Scaled(cols).value, cols, "rotation", RotationKeys);
    }
  }

  /** The returned names: the collected ones, plus `scale` and `rotation` when all their components are declared. */
  lemma AttributesNames(cols: Columns)
    requires Valid(cols) && Attributes(cols).Ok?
    ensures forall n :: n in Attributes(cols).value.entries <==>
      n in cols.entries || (n == "scale" && Declared(cols, ScaleKeys)) || (n == "rotation" && Declared(cols, RotationKeys))
  {
    ScaledShape(cols);
    ScaledKeeps(cols);
    RotationLists(cols);
    GroupLists(Scaled(cols).value, cols, "rotation", RotationKeys);
  }

  /** Every collected list other than `scale` and `rotation` is returned with its values, as an array exactly for the eight converted names. */
  lemma AttributesLists(cols: Columns, n: string)
    requires Valid(cols) && Attributes(cols).Ok?
    requires n in cols.entries && n != "scale" && n != "rotation"
    ensures n in Attributes(cols).value.entries
    ensures Attributes(cols).value.entries[n] == if n in ArrayKeys then Array(cols.entries[n]) else List(cols.entries[n])
  {
    ConvertedValues(cols);
    ScaledKeeps(cols);
    RotationLists(cols);
    GroupLists(Scaled(cols).value, cols, "rotation", RotationKeys);
  }

  /** `scale` and `rotation`, when all their components are declared, stack the components' values column by column. */
  lemma AttributesGroups(cols: Columns)
    requires Valid(cols) && Attributes(cols).Ok?
    ensures Declared(cols, ScaleKeys) ==>
      "scale" in Attributes(cols).value.entries && Attributes(cols).value.entries["scale"].Matrix? &&
      StacksLists(Attributes(cols).value.entries["scale"].rows, cols, ScaleKeys)
    ensures Declared(cols, RotationKeys) ==>
      "rotation" in Attributes(cols).value.entries && Attributes(cols).value.entries["rotation"].Matrix? &&
      StacksLists(Attributes(cols).value.entries["rotation"].rows, cols, RotationKeys)
  {
    ScaledShape(cols);
    RotationLists(cols);
    GroupLists(Scaled(cols).value, cols, "rotation", RotationKeys);
  }

  // ------------------------------------------------------------- the load

  /** What the loader returns: `positions`, `colors` and `properties`. */
  datatype Splats = Splats(positions: seq<seq<real>>, colors: seq<seq<real>>, attrs: Attrs)

  /** `load_ply_gaussian_splats` on the bytes of the file. */
  function LoadSpec(data: seq<Byte>, num: Numerics): Outcome<Splats>
  {
    match ParseHeader(data)
    case Diverges => Diverges
    case Raised(e) => Raised(e)
    case Done((h, body)) =>
      match Progress(h.props, RecordReader(h, num), body, VertexCount(h))
      case Err(e) => Raised(e)
      case Ok(g) =>
        match Colors(g.columns, |g.positions|, num)
        case Err(e) => Raised(e)
        case Ok(colors) =>
          if !Rectangular(g.positions) then Raised(ShapeMismatch)
          else
            match Attributes(g.columns)
            case Err(e) => Raised(e)
            case Ok(attrs) => Done(Splats(g.positions, colors, attrs))
  }

  /** The loader: open the file, scan the header, read the records, then build colours and arrays. */
  method LoadPly(data: seq<Byte>, num: Numerics) returns (o: Outcome<Splats>)
    ensures o == LoadSpec(data, num)
  {
    var f := new ByteFile.Open(data);
    var hd := ReadHeader(f);
    if hd.Diverges? {
      return Diverges;
    }
    if hd.Raised? {
      return Raised(hd.error);
    }
    var h := hd.value;
    var gathered := ReadVertices(f, h, num);
    if gathered.Err? {
      return Raised(gathered.error);
    }
    var g := gathered.value;
    var colors := DeriveColors(g.columns, |g.positions|, num);
    if colors.Err? {
      return Raised(colors.error);
    }
    if !Rectangular(g.positions) {
      return Raised(ShapeMismatch);
    }
    var m := ConvertArrays(Lists(g.columns));
    ConvertedValues(g.columns);
    var scaled := Group(m, "scale", ScaleKeys);
    if scaled.Err? {
      return Raised(scaled.error);
    }
    ScaledValues(g.columns);
    var grouped := Group(scaled.value, "rotation", RotationKeys);
    if grouped.Err? {
      return Raised(grouped.error);
    }
    return Done(Splats(g.positions, colors.value, grouped.value));
  }

  // ------------------------------------------------------- what a load gives

  /** A name declared at index `j` is declared at least once among the first `k`. */
  lemma OccurrencesHas(ps: seq<Prop>, name: string, j: nat, k: nat)
    requires j < k <= |ps| && ps[j].name == name
    ensures Occurrences(ps, name, k) >= 1
  {
    OccurrencesGrow(ps, name, j + 1, k);
  }

  /** After `i` records every collected list holds at least `i` values. */
  lemma ListLength(ps: seq<Prop>, read: Reader, body: seq<Byte>, i: nat, name: string)
    requires Progress(ps, read, body, i).Ok? && name in Progress(ps, read, body, i).value.columns.entries
    ensures |Progress(ps, read, body, i).value.columns.entries[name]| >= i
  {
    ProgressKeys(ps, read, body, i);
    InitialColumnsShape(ps);
    assert name in InitialColumns(ps).entries;
    var j :| 0 <= j < |ps| && ps[j].name == name;
    OccurrencesHas(ps, name, j, |ps|);
    ProgressColumnLength(ps, read, body, i, name);
    AtLeastOnce(i, Occurrences(ps, name, |ps|));
  }

  lemma AtLeastOnce(i: nat, o: nat)
    requires o >= 1
    ensures i * o >= i
  {
    assert i * o == i + i * (o - 1);
  }

  /**
   * The colour loop never runs past a list: every collected list has a
   * value per record, so the loop can only fail where `math.exp` overflows.
   */
  lemma GatheredColors(ps: seq<Prop>, read: Reader, body: seq<Byte>, i: nat, num: Numerics)
    requires Progress(ps, read, body, i).Ok?
    ensures var g := Progress(ps, read, body, i).value;
      Colors(g.columns, |g.positions|, num).Err? ==> Colors(g.columns, |g.positions|, num).error == Overflow
  {
    var g := Progress(ps, read, body, i).value;
    ProgressRecords(ps, read, body, i);
    if HasSh(g.columns) && ColorsUpTo(g.columns, num, i).Err? {
      ListLength(ps, read, body, i, "f_dc_0");
      ListLength(ps, read, body, i, "f_dc_1");
      ListLength(ps, read, body, i, "f_dc_2");
      ColorsUpToError(g.columns, num, i);
    }
  }

  /**
   * A completed load has one position and one colour per declared vertex
   * (none for a negative count), the positions form an array, and every
   * colour is three channels in (0, 1].
   */
  lemma LoadShape(data: seq<Byte>, num: Numerics)
    requires LoadSpec(data, num).Done?
    ensures ParseHeader(data).Done?
    ensures var h, s := ParseHeader(data).value.0, LoadSpec(data, num).value;
      && |s.positions| == VertexCount(h) && |s.colors| == VertexCount(h)
      && Rectangular(s.positions)
      && forall k :: 0 <= k < |s.colors| ==>
        |s.colors[k]| == 3 && forall c :: 0 <= c < 3 ==> 0.0 < s.colors[k][c] <= 1.0
  {
    var (h, body) := ParseHeader(data).value;
    var g := Progress(h.props, RecordReader(h, num), body, VertexCount(h)).value;
    ProgressRecords(h.props, RecordReader(h, num), body, VertexCount(h));
    ColorsShape(g.columns, |g.positions|, num);
  }
}
