/**
 * The subsampling step of `create_gaussian_splat_points`: when there are
 * more splats than `max_points`, the positions are cut down to the rows at
 * `max_points` distinct random indices, and the colours and the ndarray
 * attributes are cut down the same way when their length passes a test.
 * The properties dict belongs to the caller and is updated in place.
 */
module SplatSubsample {
  import opened Wrappers
  import opened OrderedMaps
  import opened PlyLoader
  import opened Alignment

  /** The caller's `properties` dict. */
  class Properties {
    var attrs: Attrs

    constructor(attrs: Attrs)
      ensures this.attrs == attrs
    {
      this.attrs := attrs;
    }
  }

  /** `values[indices]` on a numpy array: `IndexError` (`None`) when an index is past its end. */
  function Take<T>(vs: seq<T>, indices: seq<nat>): (r: Option<seq<T>>)
    ensures r.Some? <==> forall i :: 0 <= i < |indices| ==> indices[i] < |vs|
    ensures r.Some? ==> |r.value| == |indices| && forall i :: 0 <= i < |indices| ==> r.value[i] == vs[indices[i]]
  {
    if forall i :: 0 <= i < |indices| ==> indices[i] < |vs| then Some(Select(vs, indices)) else None
  }

  /** The length of an attribute that is an ndarray; lists have none here. */
  predicate Parallel(a: Attr, n: nat)
  {
    || (a.Array? && |a.values| == n)
    || (a.Matrix? && |a.rows| == n)
  }

  /**
   * One attribute of the loop: an ndarray whose length equals `against` is
   * replaced by its rows at `indices` (`None` when that raises); lists and
   * arrays of other lengths are kept.
   */
  function Resample(a: Attr, indices: seq<nat>, against: nat): Option<Attr>
  {
    if !Parallel(a, against) then Some(a)
    else if a.Array? then
      match Take(a.values, indices)
      case None => None
      case Some(vs) => Some(Array(vs))
    else
      match Take(a.rows, indices)
      case None => None
      case Some(rows) => Some(Matrix(rows))
  }

  lemma KeyAt(m: Attrs, j: nat)
    requires Valid(m) && j < |m.keys|
    ensures m.keys[j] in m.entries
  {
    assert m.keys[j] in m.entries.Keys;
  }

  /** The value `items()` yields at position `j`. */
  function ValueAt(m: Attrs, j: nat): Attr
    requires Valid(m) && j < |m.keys|
  {
    KeyAt(m, j);
    m.entries[m.keys[j]]
  }

  /** `Resample` as a function value, so that the loop's lemmas need not look inside it. */
  function Resampler(indices: seq<nat>, against: nat): Attr -> Option<Attr>
  {
    a => Resample(a, indices, against)
  }

  /**
   * The dict's values after the loop has visited the first `k` keys, each
   * replaced by `f` of its value, and whether `f` raised at one of them.
   * Assigning to a key that is present leaves the order of the keys as it
   * was.
   */
  datatype Sweep = Sweep(entries: map<string, Attr>, raised: bool)

  function SweepUpTo(m: Attrs, f: Attr -> Option<Attr>, k: nat): Sweep
    requires Valid(m) && k <= |m.keys|
  {
    if k == 0 then Sweep(m.entries, false)
    else
      var prev := SweepUpTo(m, f, k - 1);
      if prev.raised then prev
      else
        match f(ValueAt(m, k - 1))
        case None => Sweep(prev.entries, true)
        case Some(a) =>
          KeyAt(m, k - 1);
          Sweep(prev.entries[m.keys[k - 1] := a], false)
  }

  /** The caller's dict after the whole loop. */
  function Swept(m: Attrs, indices: seq<nat>, against: nat): (r: Sweep)
    requires Valid(m)
  {
    SweepUpTo(m, Resampler(indices, against), |m.keys|)
  }

  /** The outcome of the block: the new positions and colours, the caller's dict, and whether it raised. */
  datatype Sample = Sample(positions: seq<seq<real>>, colors: seq<seq<real>>, attrs: Attrs, raised: bool)

  /**
   * The block, with the colours and the ndarray attributes compared with
   * the length `against`.
   */
  function SubsampleWith(positions: seq<seq<real>>, colors: seq<seq<real>>, attrs: Attrs,
                         maxPoints: nat, indices: seq<nat>, against: nat): Sample
    requires Valid(attrs)
    requires |positions| > maxPoints ==> IsChoice(indices, |positions|, maxPoints)
  {
    if |positions| <= maxPoints then Sample(positions, colors, attrs, false)
    else
      var ps := Select(positions, indices);
      if |colors| == against && Take(colors, indices).None? then Sample(ps, colors, attrs, true)
      else
        var cs := if |colors| == against then Take(colors, indices).value else colors;
        var sweep := Swept(attrs, indices, against);
        Sample(ps, cs, OMap(attrs.keys, sweep.entries), sweep.raised)
  }

  /** The block as written: lengths are compared with `len(indices)`, that is `max_points`. */
  function AsWritten(positions: seq<seq<real>>, colors: seq<seq<real>>, attrs: Attrs,
                     maxPoints: nat, indices: seq<nat>): Sample
    requires Valid(attrs)
    requires |positions| > maxPoints ==> IsChoice(indices, |positions|, maxPoints)
  {
    SubsampleWith(positions, colors, attrs, maxPoints, indices, |indices|)
  }

  /** The block as intended: lengths are compared with the number of splats before subsampling. */
  function Intended(positions: seq<seq<real>>, colors: seq<seq<real>>, attrs: Attrs,
                    maxPoints: nat, indices: seq<nat>): Sample
    requires Valid(attrs)
    requires |positions| > maxPoints ==> IsChoice(indices, |positions|, maxPoints)
  {
    SubsampleWith(positions, colors, attrs, maxPoints, indices, |positions|)
  }

  // ---------------------------------------------------------------- the loop

  /** The loop raises exactly when `f` raises at some visited value. */
  lemma {:induction false} SweepRaised(m: Attrs, f: Attr -> Option<Attr>, k: nat)
    requires Valid(m) && k <= |m.keys|
    ensures SweepUpTo(m, f, k).raised <==> exists j :: 0 <= j < k && f(ValueAt(m, j)).None?
  {
    if k > 0 {
      SweepRaised(m, f, k - 1);
    }
  }

  /** The loop keeps the keys of the dict. */
  lemma {:induction false} SweepKeys(m: Attrs, f: Attr -> Option<Attr>, k: nat)
    requires Valid(m) && k <= |m.keys|
    ensures Valid(OMap(m.keys, SweepUpTo(m, f, k).entries))
  {
    if k > 0 {
      SweepKeys(m, f, k - 1);
      KeyAt(m, k - 1);
    }
  }

  /** Once the loop has raised, nothing changes any more. */
  lemma {:induction false} SweepStops(m: Attrs, f: Attr -> Option<Attr>, k: nat, j: nat)
    requires Valid(m) && k <= j <= |m.keys|
    requires SweepUpTo(m, f, k).raised
    ensures SweepUpTo(m, f, j) == SweepUpTo(m, f, k)
    decreases j
  {
    if j > k {
      SweepStops(m, f, k, j - 1);
    }
  }

  /**
   * Before the loop has raised, the first `k` keys hold `f` of their values
   * and the others their original ones.
   */
  lemma {:induction false} SweepEntries(m: Attrs, f: Attr -> Option<Attr>, k: nat)
    requires Valid(m) && k <= |m.keys|
    requires !SweepUpTo(m, f, k).raised
    ensures var r := SweepUpTo(m, f, k);
      && (forall j :: 0 <= j < k ==>
            f(ValueAt(m, j)).Some? && m.keys[j] in r.entries && r.entries[m.keys[j]] == f(ValueAt(m, j)).value)
      && (forall j :: k <= j < |m.keys| ==> m.keys[j] in r.entries && r.entries[m.keys[j]] == ValueAt(m, j))
  {
    if k > 0 {
      SweepEntries(m, f, k - 1);
      SweepStep(m, f, k);
    }
  }

  lemma SweepStep(m: Attrs, f: Attr -> Option<Attr>, k: nat)
    requires Valid(m) && 0 < k <= |m.keys|
    requires !SweepUpTo(m, f, k).raised
    ensures var prev, r := SweepUpTo(m, f, k - 1), SweepUpTo(m, f, k);
      && !prev.raised
      && f(ValueAt(m, k - 1)).Some?
      && r.entries == prev.entries[m.keys[k - 1] := f(ValueAt(m, k - 1)).value]
      && forall j :: 0 <= j < |m.keys| && j != k - 1 ==> m.keys[j] != m.keys[k - 1]
  {
  }

  /** A key's value after the whole loop, when it did not raise. */
  lemma SweepValue(m: Attrs, f: Attr -> Option<Attr>, key: string)
    requires Valid(m) && key in m.entries
    requires !SweepUpTo(m, f, |m.keys|).raised
    ensures var r := SweepUpTo(m, f, |m.keys|);
      && key in r.entries && f(m.entries[key]).Some? && r.entries[key] == f(m.entries[key]).value
  {
    SweepEntries(m, f, |m.keys|);
    assert key in m.entries.Keys;
    var j :| 0 <= j < |m.keys| && m.keys[j] == key;
    assert ValueAt(m, j) == m.entries[key];
  }

  /** `SweepValue` for the loop of the block. */
  lemma SweptValue(m: Attrs, indices: seq<nat>, against: nat, key: string)
    requires Valid(m) && key in m.entries
    requires !Swept(m, indices, against).raised
    ensures var r := Swept(m, indices, against);
      && key in r.entries
      && Resample(m.entries[key], indices, against).Some?
      && r.entries[key] == Resample(m.entries[key], indices, against).value
  {
    var f := Resampler(indices, against);
    SweepValue(m, f, key);
    assert f(m.entries[key]) == Resample(m.entries[key], indices, against);
  }

  /** With every index below `against`, resampling never raises, so neither does the loop. */
  lemma SweepSafe(m: Attrs, indices: seq<nat>, against: nat)
    requires Valid(m)
    requires forall i :: 0 <= i < |indices| ==> indices[i] < against
    ensures !Swept(m, indices, against).raised
  {
    var f := Resampler(indices, against);
    SweepRaised(m, f, |m.keys|);
    forall j | 0 <= j < |m.keys|
      ensures f(ValueAt(m, j)).Some?
    {
      var a := ValueAt(m, j);
      assert f(a) == Resample(a, indices, against);
    }
  }

  /**
   * The block on the caller's data: returns the new positions and colours
   * and whether it raised `IndexError`, and leaves the caller's dict (when
   * there is one) as the loop left it.
   */
  method Subsample(positions: seq<seq<real>>, colors: seq<seq<real>>, properties: Properties?,
                   maxPoints: nat, indices: seq<nat>)
    returns (ps: seq<seq<real>>, cs: seq<seq<real>>, raised: bool)
    requires |positions| > maxPoints ==> IsChoice(indices, |positions|, maxPoints)
    requires properties != null ==> Valid(properties.attrs)
    modifies properties
    ensures var s := AsWritten(positions, colors, if properties == null then Empty() else old(properties.attrs), maxPoints, indices);
      && ps == s.positions && cs == s.colors && raised == s.raised
      && (properties != null ==> properties.attrs == s.attrs)
  {
    ps, cs, raised := positions, colors, false;
    if |positions| > maxPoints {
      ps := Select(positions, indices);
      if |colors| == |indices| {
        var picked := Take(colors, indices);
        if picked.None? {
          return ps, cs, true;
        }
        cs := picked.value;
      }
      if properties != null {
        raised := ResampleProperties(properties, indices, |indices|);
      }
    }
  }

  /**
   * The loop over `properties.items()`: each ndarray whose length equals
   * `against` is replaced, in place, by its rows at `indices`; it stops at
   * the first `IndexError`.
   */
  method ResampleProperties(properties: Properties, indices: seq<nat>, against: nat) returns (raised: bool)
    requires Valid(properties.attrs)
    modifies properties
    ensures var r := Swept(old(properties.attrs), indices, against);
      properties.attrs == OMap(old(properties.attrs).keys, r.entries) && raised == r.raised
  {
    ghost var m := properties.attrs;
    ghost var f := Resampler(indices, against);
    var items := properties.attrs;
    var keys := items.keys;
    for k := 0 to |keys|
      invariant properties.attrs == OMap(m.keys, SweepUpTo(m, f, k).entries)
      invariant !SweepUpTo(m, f, k).raised
    {
      var key := keys[k];
      KeyAt(m, k);
      var values := items.entries[key];
      var next := Resample(values, indices, against);
      assert next == f(ValueAt(m, k));
      if next.None? {
        SweepStops(m, f, k + 1, |keys|);
        return true;
      }
      // `key` is present, so `properties[key] = ...` keeps the order of the keys
      properties.attrs := properties.attrs.(entries := properties.attrs.entries[key := next.value]);
    }
    return false;
  }

  // --------------------------------------------------------------- properties

  /**
   * With lengths compared to the original count, subsampling never raises,
   * keeps every key, cuts the positions to the chosen rows, and keeps the
   * colours and every ndarray that ran parallel to the positions parallel
   * to them, each cut to the same rows; everything else is untouched.
   */
  lemma IntendedKeepsParallel(positions: seq<seq<real>>, colors: seq<seq<real>>, attrs: Attrs,
                              maxPoints: nat, indices: seq<nat>)
    requires Valid(attrs) && |positions| > maxPoints && IsChoice(indices, |positions|, maxPoints)
    ensures var s := Intended(positions, colors, attrs, maxPoints, indices);
      && !s.raised && s.attrs.keys == attrs.keys && Valid(s.attrs)
      && |s.positions| == maxPoints
      && (forall i :: 0 <= i < maxPoints ==> s.positions[i] == positions[indices[i]])
      && (|colors| == |positions| ==> |s.colors| == maxPoints && forall i :: 0 <= i < maxPoints ==> s.colors[i] == colors[indices[i]])
      && (|colors| != |positions| ==> s.colors == colors)
  {
    SweepSafe(attrs, indices, |positions|);
    SweepKeys(attrs, Resampler(indices, |positions|), |attrs.keys|);
  }

  /** The same for one attribute: a parallel ndarray becomes parallel to the new positions, with the chosen rows. */
  lemma IntendedAttribute(positions: seq<seq<real>>, colors: seq<seq<real>>, attrs: Attrs,
                          maxPoints: nat, indices: seq<nat>, key: string)
    requires Valid(attrs) && |positions| > maxPoints && IsChoice(indices, |positions|, maxPoints)
    requires key in attrs.entries
    ensures var s, a := Intended(positions, colors, attrs, maxPoints, indices), attrs.entries[key];
      && key in s.attrs.entries
      && (Parallel(a, |positions|) ==> Parallel(s.attrs.entries[key], maxPoints))
      && (a.Array? && Parallel(a, |positions|) ==>
            s.attrs.entries[key].Array? && forall i :: 0 <= i < maxPoints ==> s.attrs.entries[key].values[i] == a.values[indices[i]])
      && (a.Matrix? && Parallel(a, |positions|) ==>
            s.attrs.entries[key].Matrix? && forall i :: 0 <= i < maxPoints ==> s.attrs.entries[key].rows[i] == a.rows[indices[i]])
      && (!Parallel(a, |positions|) ==> s.attrs.entries[key] == a)
  {
    SweepSafe(attrs, indices, |positions|);
    SweptValue(attrs, indices, |positions|, key);
  }

  /**
   * As written, colours and ndarrays that ran parallel to the positions
   * are never cut down: after subsampling they are longer than the
   * positions.
   */
  lemma AsWrittenDropsParallel(positions: seq<seq<real>>, colors: seq<seq<real>>, attrs: Attrs,
                               maxPoints: nat, indices: seq<nat>, key: string)
    requires Valid(attrs) && |positions| > maxPoints && IsChoice(indices, |positions|, maxPoints)
    ensures var s := AsWritten(positions, colors, attrs, maxPoints, indices);
      |colors| == |positions| ==> s.colors == colors && |s.colors| > |s.positions|
    ensures var s := AsWritten(positions, colors, attrs, maxPoints, indices);
      key in attrs.entries && Parallel(attrs.entries[key], |positions|) && !s.raised ==>
        key in s.attrs.entries && s.attrs.entries[key] == attrs.entries[key] && !Parallel(s.attrs.entries[key], |s.positions|)
  {
    var s := AsWritten(positions, colors, attrs, maxPoints, indices);
    if key in attrs.entries && !s.raised {
      SweptValue(attrs, indices, |indices|, key);
    }
  }

  /**
   * Three splats cut to two: as written the three colours stay, and an
   * unrelated two-element array makes the loop raise `IndexError`; as
   * intended the colours are cut to the same two rows and nothing raises.
   */
  lemma AsWrittenExample()
    ensures var positions := [[0.0, 0.0, 0.0], [1.0, 1.0, 1.0], [2.0, 2.0, 2.0]];
      var colors := [[0.1, 0.1, 0.1], [0.5, 0.5, 0.5], [0.9, 0.9, 0.9]];
      var attrs := Insert(Empty(), "extra", Array([7.0, 8.0]));
      var s, t := AsWritten(positions, colors, attrs, 2, [2, 0]), Intended(positions, colors, attrs, 2, [2, 0]);
      && s.positions == [[2.0, 2.0, 2.0], [0.0, 0.0, 0.0]] && s.colors == colors && s.raised
      && t.positions == s.positions && t.colors == [[0.9, 0.9, 0.9], [0.1, 0.1, 0.1]] && !t.raised
  {
    var positions := [[0.0, 0.0, 0.0], [1.0, 1.0, 1.0], [2.0, 2.0, 2.0]];
    var colors := [[0.1, 0.1, 0.1], [0.5, 0.5, 0.5], [0.9, 0.9, 0.9]];
    var attrs: Attrs := Insert(Empty(), "extra", Array([7.0, 8.0]));
    assert IsChoice([2, 0], |positions|, 2);
    assert attrs.keys == ["extra"];
    var f := Resampler([2, 0], 2);
    assert ValueAt(attrs, 0) == Array([7.0, 8.0]);
    assert [2, 0][0] == 2;
    assert f(ValueAt(attrs, 0)).None?;
    SweepStops(attrs, f, 1, 1);
    SweepSafe(attrs, [2, 0], 3);
    assert Take(colors, [2, 0]).Some?;
  }
}
