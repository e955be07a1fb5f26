/**
 * The vertex loop of the splat loader: `vertex_count` records read one
 * after the other, the first three values of each kept as its position,
 * and every other value appended to the list of its property's name.
 */
module PlyGather {
  import opened Wrappers
  import opened Bytes
  import opened ByteFiles
  import opened OrderedMaps
  import opened PlyHeader
  import opened PlyValues
  import opened PlyRecords

  /** The names whose values are not collected: `x`, `y` and `z`. */
  predicate IsAxis(name: string)
  {
    |name| == 1 && (name[0] == 'x' || name[0] == 'y' || name[0] == 'z')
  }

  /** The `properties` dict while records are read: one list of values per name. */
  type Columns = OMap<string, seq<real>>

  /** `range(vertex_count)`: a negative count reads no record. */
  function VertexCount(h: Header): nat
  {
    if h.count < 0 then 0 else h.count
  }

  /** `pos = data[:3]`. */
  function Position(vals: seq<real>): (p: seq<real>)
    ensures |p| == Min(3, |vals|)
  {
    if |vals| <= 3 then vals else vals[..3]
  }

  // ------------------------------------------------------- the empty lists

  /** `properties[prop_name] = []` for every declared name other than x, y and z, in order. */
  function InitialColumns(ps: seq<Prop>): (m: Columns)
    ensures Valid(m)
  {
    if |ps| == 0 then Empty()
    else
      var m := InitialColumns(ps[..|ps| - 1]);
      var name := ps[|ps| - 1].name;
      if IsAxis(name) then m else Insert(m, name, [])
  }

  /** Every declared name other than x, y and z has a list. */
  predicate Covers(m: Columns, ps: seq<Prop>)
  {
    forall j :: 0 <= j < |ps| && !IsAxis(ps[j].name) ==> ps[j].name in m.entries
  }

  /** Every collected name gets its list up front. */
  lemma {:induction false} InitialCovers(ps: seq<Prop>)
    ensures Covers(InitialColumns(ps), ps)
  {
    if |ps| > 0 {
      var init := ps[..|ps| - 1];
      InitialCovers(init);
      forall j | 0 <= j < |ps| && !IsAxis(ps[j].name) ensures ps[j].name in InitialColumns(ps).entries {
        if j < |ps| - 1 {
          assert init[j] == ps[j];
        }
      }
    }
  }

  /** The lists start empty, one per declared name other than x, y and z, and for no other name. */
  lemma {:induction false} InitialColumnsShape(ps: seq<Prop>)
    ensures forall name :: name in InitialColumns(ps).entries ==>
      !IsAxis(name) && InitialColumns(ps).entries[name] == [] && exists j :: 0 <= j < |ps| && ps[j].name == name
  {
    if |ps| > 0 {
      var init := ps[..|ps| - 1];
      InitialColumnsShape(init);
      var m := InitialColumns(ps);
      forall name | name in m.entries
        ensures !IsAxis(name) && m.entries[name] == [] && exists j :: 0 <= j < |ps| && ps[j].name == name
      {
        if name in InitialColumns(init).entries {
          var j :| 0 <= j < |init| && init[j].name == name;
          assert ps[j].name == name;
        } else {
          assert ps[|ps| - 1].name == name;
        }
      }
    }
  }

  // ------------------------------------------------- one record's values

  /**
   * The `prop_idx` loop over the first `k` properties: x, y and z are
   * skipped, a missing list is created (it never is: the lists were made
   * up front), and the value at the property's index is appended, which
   * raises `IndexError` when the record has no such value.
   */
  function DistributeUpTo(m: Columns, ps: seq<Prop>, vals: seq<real>, k: nat): (r: Result<Columns, PlyError>)
    requires Valid(m) && k <= |ps|
    ensures r.Ok? ==> Valid(r.value)
  {
    if k == 0 then Ok(m)
    else
      match DistributeUpTo(m, ps, vals, k - 1)
      case Err(e) => Err(e)
      case Ok(cur) =>
        var name := ps[k - 1].name;
        if IsAxis(name) then Ok(cur)
        else
          var cur' := if name in cur.entries then cur else Insert(cur, name, []);
          if k - 1 < |vals| then Ok(Insert(cur', name, cur'.entries[name] + [vals[k - 1]]))
          else Err(MissingValue)
  }

  /** The whole `prop_idx` loop of one record. */
  function Distribute(m: Columns, ps: seq<Prop>, vals: seq<real>): (r: Result<Columns, PlyError>)
    requires Valid(m)
    ensures r.Ok? ==> Valid(r.value)
  {
    DistributeUpTo(m, ps, vals, |ps|)
  }

  /** The values of `vals` at the first `k` indices whose property is called `name`. */
  function Picks(ps: seq<Prop>, vals: seq<real>, name: string, k: nat): seq<real>
    requires k <= |ps|
  {
    if k == 0 then []
    else Picks(ps, vals, name, k - 1) + (if ps[k - 1].name == name && k - 1 < |vals| then [vals[k - 1]] else [])
  }

  /** How many of the first `k` properties are called `name`. */
  function Occurrences(ps: seq<Prop>, name: string, k: nat): nat
    requires k <= |ps|
  {
    if k == 0 then 0
    else Occurrences(ps, name, k - 1) + (if ps[k - 1].name == name then 1 else 0)
  }

  /** The record's values reach every property other than x, y and z. */
  predicate Reaches(ps: seq<Prop>, vals: seq<real>, k: nat)
    requires k <= |ps|
  {
    forall j :: 0 <= j < k && !IsAxis(ps[j].name) ==> j < |vals|
  }

  /** The loop fails exactly when a property other than x, y and z lies past the record's last value. */
  lemma {:induction false} DistributeReach(m: Columns, ps: seq<Prop>, vals: seq<real>, k: nat)
    requires Valid(m) && k <= |ps|
    ensures DistributeUpTo(m, ps, vals, k).Ok? <==> Reaches(ps, vals, k)
    ensures DistributeUpTo(m, ps, vals, k).Err? ==> DistributeUpTo(m, ps, vals, k).error == MissingValue
  {
    if k > 0 {
      DistributeReach(m, ps, vals, k - 1);
      DistributeOkStep(m, ps, vals, k);
      ReachesStep(ps, vals, k);
    }
  }

  lemma ReachesStep(ps: seq<Prop>, vals: seq<real>, k: nat)
    requires 0 < k <= |ps|
    ensures Reaches(ps, vals, k) <==> Reaches(ps, vals, k - 1) && (IsAxis(ps[k - 1].name) || k - 1 < |vals|)
  {
  }

  /** One property more succeeds when the ones before did and it is skipped or has a value. */
  lemma DistributeOkStep(m: Columns, ps: seq<Prop>, vals: seq<real>, k: nat)
    requires Valid(m) && 0 < k <= |ps|
    ensures var r, prev := DistributeUpTo(m, ps, vals, k), DistributeUpTo(m, ps, vals, k - 1);
      && (r.Ok? <==> prev.Ok? && (IsAxis(ps[k - 1].name) || k - 1 < |vals|))
      && (r.Err? ==> r.error == (if prev.Err? then prev.error else MissingValue))
  {
  }

  /** No list is lost. */
  lemma {:induction false} DistributeCovers(m: Columns, ps: seq<Prop>, vals: seq<real>, k: nat)
    requires Valid(m) && k <= |ps| && DistributeUpTo(m, ps, vals, k).Ok?
    ensures forall n :: n in m.entries ==> n in DistributeUpTo(m, ps, vals, k).value.entries
  {
    if k > 0 {
      DistributeCovers(m, ps, vals, k - 1);
    }
  }

  /** With every list made up front, the loop adds no key and moves none. */
  lemma {:induction false} DistributeKeys(m: Columns, ps: seq<Prop>, vals: seq<real>, k: nat)
    requires Valid(m) && k <= |ps| && Covers(m, ps) && DistributeUpTo(m, ps, vals, k).Ok?
    ensures DistributeUpTo(m, ps, vals, k).value.keys == m.keys
    ensures DistributeUpTo(m, ps, vals, k).value.entries.Keys == m.entries.Keys
  {
    if k > 0 {
      DistributeKeys(m, ps, vals, k - 1);
    }
  }

  /** Each list other than x, y and z gains exactly the values of the properties with its name, in order. */
  lemma {:induction false} DistributeColumn(m: Columns, ps: seq<Prop>, vals: seq<real>, k: nat, name: string)
    requires Valid(m) && k <= |ps| && Covers(m, ps)
    requires name in m.entries && !IsAxis(name)
    requires DistributeUpTo(m, ps, vals, k).Ok?
    ensures name in DistributeUpTo(m, ps, vals, k).value.entries
    ensures DistributeUpTo(m, ps, vals, k).value.entries[name] == m.entries[name] + Picks(ps, vals, name, k)
  {
    if k == 0 {
      assert m.entries[name] + [] == m.entries[name];
    } else {
      assert DistributeUpTo(m, ps, vals, k - 1).Ok?;
      DistributeColumn(m, ps, vals, k - 1, name);
      var cur := DistributeUpTo(m, ps, vals, k - 1).value;
      NextListExists(m, ps, vals, k, cur);
      ColumnStep(m, ps, vals, k, cur, name, m.entries[name]);
    }
  }

  /** The next collected property has a list and a value. */
  lemma NextListExists(m: Columns, ps: seq<Prop>, vals: seq<real>, k: nat, cur: Columns)
    requires Valid(m) && 0 < k <= |ps| && Covers(m, ps)
    requires DistributeUpTo(m, ps, vals, k - 1) == Ok(cur) && DistributeUpTo(m, ps, vals, k).Ok?
    ensures IsAxis(ps[k - 1].name) || (ps[k - 1].name in cur.entries && k - 1 < |vals|)
  {
    DistributeReach(m, ps, vals, k);
    DistributeCovers(m, ps, vals, k - 1);
  }

  /** One property more: the list of `name` gains the value exactly when the property is called `name`. */
  lemma ColumnStep(m: Columns, ps: seq<Prop>, vals: seq<real>, k: nat, cur: Columns, name: string, base: seq<real>)
    requires Valid(m) && 0 < k <= |ps| && DistributeUpTo(m, ps, vals, k - 1) == Ok(cur)
    requires name in cur.entries && !IsAxis(name) && DistributeUpTo(m, ps, vals, k).Ok?
    requires IsAxis(ps[k - 1].name) || (ps[k - 1].name in cur.entries && k - 1 < |vals|)
    requires cur.entries[name] == base + Picks(ps, vals, name, k - 1)
    ensures name in DistributeUpTo(m, ps, vals, k).value.entries
    ensures DistributeUpTo(m, ps, vals, k).value.entries[name] == base + Picks(ps, vals, name, k)
  {
    var n := ps[k - 1].name;
    var before := Picks(ps, vals, name, k - 1);
    if IsAxis(n) {
      assert Picks(ps, vals, name, k) == before + [];
    } else {
      DistributeAppend(m, ps, vals, k, cur);
      if n == name {
        assert (base + before) + [vals[k - 1]] == base + (before + [vals[k - 1]]);
      } else {
        assert Picks(ps, vals, name, k) == before + [];
      }
    }
  }

  /** A collected property whose list exists appends its value to that list. */
  lemma DistributeAppend(m: Columns, ps: seq<Prop>, vals: seq<real>, k: nat, cur: Columns)
    requires Valid(m) && 0 < k <= |ps| && k - 1 < |vals| && !IsAxis(ps[k - 1].name)
    requires DistributeUpTo(m, ps, vals, k - 1) == Ok(cur) && ps[k - 1].name in cur.entries
    ensures var n := ps[k - 1].name;
      DistributeUpTo(m, ps, vals, k) == Ok(Insert(cur, n, cur.entries[n] + [vals[k - 1]]))
  {
  }

  /** When the record reaches every collected property, each name gains one value per property with that name. */
  lemma {:induction false} PicksCount(ps: seq<Prop>, vals: seq<real>, name: string, k: nat)
    requires k <= |ps| && Reaches(ps, vals, k) && !IsAxis(name)
    ensures |Picks(ps, vals, name, k)| == Occurrences(ps, name, k)
  {
    if k > 0 {
      assert Reaches(ps, vals, k - 1);
      PicksCount(ps, vals, name, k - 1);
    }
  }

  /** A name declared once, at index `j`, gains exactly the value at `j`. */
  lemma {:induction false} PicksSingle(ps: seq<Prop>, vals: seq<real>, name: string, k: nat, j: nat)
    requires j < k <= |ps| && j < |vals| && ps[j].name == name && Occurrences(ps, name, k) == 1
    ensures Picks(ps, vals, name, k) == [vals[j]]
  {
    if j < k - 1 {
      OccurrencesGrow(ps, name, j + 1, k - 1);
      assert Occurrences(ps, name, j + 1) >= 1;
      PicksSingle(ps, vals, name, k - 1, j);
    } else {
      OccurrencesZero(ps, vals, name, k - 1);
    }
  }

  lemma {:induction false} OccurrencesZero(ps: seq<Prop>, vals: seq<real>, name: string, k: nat)
    requires k <= |ps| && Occurrences(ps, name, k) == 0
    ensures Picks(ps, vals, name, k) == []
  {
    if k > 0 {
      OccurrencesZero(ps, vals, name, k - 1);
    }
  }

  lemma {:induction false} OccurrencesGrow(ps: seq<Prop>, name: string, j: nat, k: nat)
    requires j <= k <= |ps|
    ensures Occurrences(ps, name, j) <= Occurrences(ps, name, k)
    decreases k
  {
    if j < k {
      OccurrencesGrow(ps, name, j, k - 1);
    }
  }

  // ----------------------------------------------------------- the records

  /** One record: a `read_value` per property in binary mode, one split line in ASCII mode. */
  function RecordAt(h: Header, num: Numerics, rest: seq<Byte>): Result<(seq<real>, seq<Byte>), PlyError>
  {
    if h.binary then BinaryRecord(KindsOf(h.props), h.little, rest, num)
    else AsciiRecord(KindsOf(h.props), rest, num)
  }

  /** A way of reading one record from the unread bytes. */
  type Reader = seq<Byte> -> Result<(seq<real>, seq<Byte>), PlyError>

  /** The header's record format as a reader. */
  function RecordReader(h: Header, num: Numerics): Reader
  {
    rest => RecordAt(h, num, rest)
  }

  /** The first `i` records as decoded, before anything is done with them, and the bytes after them. */
  function VertexRecords(read: Reader, body: seq<Byte>, i: nat): Result<(seq<seq<real>>, seq<Byte>), PlyError>
  {
    if i == 0 then Ok(([], body))
    else
      match VertexRecords(read, body, i - 1)
      case Err(e) => Err(e)
      case Ok(p) =>
        match read(p.1)
        case Err(e) => Err(e)
        case Ok(rec) => Ok((p.0 + [rec.0], rec.1))
  }

  /** What the vertex loop has built: `positions`, the `properties` lists, and the unread bytes. */
  datatype Gathered = Gathered(positions: seq<seq<real>>, columns: Columns, rest: seq<Byte>)

  /** The state after `i` passes of the vertex loop over the bytes `body` after the header. */
  function Progress(ps: seq<Prop>, read: Reader, body: seq<Byte>, i: nat): (r: Result<Gathered, PlyError>)
    ensures r.Ok? ==> Valid(r.value.columns)
  {
    if i == 0 then Ok(Gathered([], InitialColumns(ps), body))
    else
      match Progress(ps, read, body, i - 1)
      case Err(e) => Err(e)
      case Ok(g) =>
        match read(g.rest)
        case Err(e) => Err(e)
        case Ok(rec) =>
          match Distribute(g.columns, ps, rec.0)
          case Err(e) => Err(e)
          case Ok(cols) => Ok(Gathered(g.positions + [Position(rec.0)], cols, rec.1))
  }

  /** The values of `name` across `rows`, record after record. */
  function Column(ps: seq<Prop>, rows: seq<seq<real>>, name: string): seq<real>
  {
    if |rows| == 0 then []
    else Column(ps, rows[..|rows| - 1], name) + Picks(ps, rows[|rows| - 1], name, |ps|)
  }

  /** After `i` passes the loop has read exactly the first `i` records and kept one position per record. */
  lemma {:induction false} ProgressRecords(ps: seq<Prop>, read: Reader, body: seq<Byte>, i: nat)
    requires Progress(ps, read, body, i).Ok?
    ensures VertexRecords(read, body, i).Ok?
    ensures var g, p := Progress(ps, read, body, i).value, VertexRecords(read, body, i).value;
      |g.positions| == |p.0| == i && g.rest == p.1
  {
    if i > 0 {
      ProgressRecords(ps, read, body, i - 1);
    }
  }

  /** A record's position is its first three values, whatever their names. */
  lemma {:induction false} ProgressPosition(ps: seq<Prop>, read: Reader, body: seq<Byte>, i: nat, k: nat)
    requires k < i && Progress(ps, read, body, i).Ok?
    ensures VertexRecords(read, body, i).Ok? && |VertexRecords(read, body, i).value.0| == i
    ensures |Progress(ps, read, body, i).value.positions| == i
    ensures Progress(ps, read, body, i).value.positions[k] == Position(VertexRecords(read, body, i).value.0[k])
  {
    ProgressRecords(ps, read, body, i);
    ProgressRecords(ps, read, body, i - 1);
    if k < i - 1 {
      ProgressPosition(ps, read, body, i - 1, k);
    }
  }

  /** Every record the loop has placed reached all the collected properties. */
  lemma {:induction false} ProgressReaches(ps: seq<Prop>, read: Reader, body: seq<Byte>, i: nat, k: nat)
    requires k < i && Progress(ps, read, body, i).Ok?
    ensures VertexRecords(read, body, i).Ok? && |VertexRecords(read, body, i).value.0| == i
    ensures Reaches(ps, VertexRecords(read, body, i).value.0[k], |ps|)
  {
    ProgressRecords(ps, read, body, i);
    ProgressRecords(ps, read, body, i - 1);
    if k < i - 1 {
      ProgressReaches(ps, read, body, i - 1, k);
    } else {
      var g := Progress(ps, read, body, i - 1).value;
      DistributeReach(g.columns, ps, read(g.rest).value.0, |ps|);
    }
  }

  /** The lists made up front stay, and every collected name keeps its list. */
  lemma {:induction false} ProgressCovers(ps: seq<Prop>, read: Reader, body: seq<Byte>, i: nat)
    requires Progress(ps, read, body, i).Ok?
    ensures Covers(Progress(ps, read, body, i).value.columns, ps)
    ensures forall n :: n in InitialColumns(ps).entries ==> n in Progress(ps, read, body, i).value.columns.entries
  {
    if i == 0 {
      InitialCovers(ps);
    } else {
      ProgressCovers(ps, read, body, i - 1);
      var g := Progress(ps, read, body, i - 1).value;
      DistributeCovers(g.columns, ps, read(g.rest).value.0, |ps|);
    }
  }

  /** The loop adds no key to the lists made up front and moves none. */
  lemma {:induction false} ProgressKeys(ps: seq<Prop>, read: Reader, body: seq<Byte>, i: nat)
    requires Progress(ps, read, body, i).Ok?
    ensures Progress(ps, read, body, i).value.columns.keys == InitialColumns(ps).keys
    ensures Progress(ps, read, body, i).value.columns.entries.Keys == InitialColumns(ps).entries.Keys
  {
    if i > 0 {
      ProgressKeys(ps, read, body, i - 1);
      ProgressCovers(ps, read, body, i - 1);
      var g := Progress(ps, read, body, i - 1).value;
      DistributeKeys(g.columns, ps, read(g.rest).value.0, |ps|);
    }
  }

  /** Each collected list holds, record after record, the values of the properties with its name. */
  lemma {:induction false} ProgressColumn(ps: seq<Prop>, read: Reader, body: seq<Byte>, i: nat, name: string)
    requires Progress(ps, read, body, i).Ok? && name in InitialColumns(ps).entries && !IsAxis(name)
    ensures VertexRecords(read, body, i).Ok?
    ensures name in Progress(ps, read, body, i).value.columns.entries
    ensures Progress(ps, read, body, i).value.columns.entries[name] == Column(ps, VertexRecords(read, body, i).value.0, name)
  {
    ProgressRecords(ps, read, body, i);
    if i == 0 {
      InitialEmpty(ps, name);
    } else {
      ProgressRecords(ps, read, body, i - 1);
      ProgressColumn(ps, read, body, i - 1, name);
      ProgressCovers(ps, read, body, i - 1);
      var g := Progress(ps, read, body, i - 1).value;
      var rec := read(g.rest).value;
      DistributeColumn(g.columns, ps, rec.0, |ps|, name);
      ColumnSnoc(ps, VertexRecords(read, body, i - 1).value.0, rec.0, name);
    }
  }

  /** A list made up front is empty. */
  lemma InitialEmpty(ps: seq<Prop>, name: string)
    requires name in InitialColumns(ps).entries
    ensures InitialColumns(ps).entries[name] == []
  {
    InitialColumnsShape(ps);
  }

  lemma ColumnSnoc(ps: seq<Prop>, rows: seq<seq<real>>, row: seq<real>, name: string)
    ensures Column(ps, rows + [row], name) == Column(ps, rows, name) + Picks(ps, row, name, |ps|)
  {
    assert (rows + [row])[..|rows|] == rows;
  }

  /** When every record reaches the collected properties, a list has one value per record per property with its name. */
  lemma {:induction false} ColumnCount(ps: seq<Prop>, rows: seq<seq<real>>, name: string)
    requires !IsAxis(name) && forall k :: 0 <= k < |rows| ==> Reaches(ps, rows[k], |ps|)
    ensures |Column(ps, rows, name)| == |rows| * Occurrences(ps, name, |ps|)
  {
    if |rows| > 0 {
      var init := rows[..|rows| - 1];
      assert forall k :: 0 <= k < |init| ==> init[k] == rows[k];
      ColumnCount(ps, init, name);
      PicksCount(ps, rows[|rows| - 1], name, |ps|);
      var o := Occurrences(ps, name, |ps|);
      assert |init| * o + o == |rows| * o;
    }
  }

  /** A name declared once, at index `j`, collects exactly column `j` of the records. */
  lemma {:induction false} ColumnSingle(ps: seq<Prop>, rows: seq<seq<real>>, name: string, j: nat)
    requires j < |ps| && ps[j].name == name && Occurrences(ps, name, |ps|) == 1
    requires forall k :: 0 <= k < |rows| ==> j < |rows[k]|
    ensures |Column(ps, rows, name)| == |rows|
    ensures forall k :: 0 <= k < |rows| ==> Column(ps, rows, name)[k] == rows[k][j]
  {
    if |rows| > 0 {
      var init := rows[..|rows| - 1];
      assert forall k :: 0 <= k < |init| ==> init[k] == rows[k];
      ColumnSingle(ps, init, name, j);
      PicksSingle(ps, rows[|rows| - 1], name, |ps|, j);
    }
  }

  /**
   * After the whole loop, a list collected for `name` holds `i` values per
   * property called `name`: `vertex_count` values when names are distinct.
   */
  lemma ProgressColumnLength(ps: seq<Prop>, read: Reader, body: seq<Byte>, i: nat, name: string)
    requires Progress(ps, read, body, i).Ok? && name in Progress(ps, read, body, i).value.columns.entries
    ensures |Progress(ps, read, body, i).value.columns.entries[name]| == i * Occurrences(ps, name, |ps|)
  {
    ProgressRecords(ps, read, body, i);
    ProgressKeys(ps, read, body, i);
    InitialColumnsShape(ps);
    ProgressColumn(ps, read, body, i, name);
    var rows := VertexRecords(read, body, i).value.0;
    forall k | 0 <= k < |rows| ensures Reaches(ps, rows[k], |ps|) {
      ProgressReaches(ps, read, body, i, k);
    }
    ColumnCount(ps, rows, name);
  }

  // ----------------------------------------------------------- the loops

  /** The loop that gives every collected name an empty list. */
  method MakeColumns(ps: seq<Prop>) returns (m: Columns)
    ensures m == InitialColumns(ps)
  {
    m := Empty();
    var j := 0;
    while j < |ps|
      invariant j <= |ps| && m == InitialColumns(ps[..j])
    {
      assert ps[..j + 1][..j] == ps[..j];
      var name := ps[j].name;
      if !IsAxis(name) {
        m := Insert(m, name, []);
      }
      j := j + 1;
    }
    assert ps[..j] == ps;
  }

  /** The `prop_idx` loop of one record. */
  method DistributeRecord(m: Columns, ps: seq<Prop>, vals: seq<real>) returns (r: Result<Columns, PlyError>)
    requires Valid(m)
    ensures r == Distribute(m, ps, vals)
  {
    var cur := m;
    var propIdx := 0;
    while propIdx < |ps|
      invariant propIdx <= |ps| && DistributeUpTo(m, ps, vals, propIdx) == Ok(cur)
    {
      var name := ps[propIdx].name;
      if !IsAxis(name) {
        if name !in cur.entries {
          cur := Insert(cur, name, []);
        }
        if propIdx >= |vals| {
          ErrorStays(m, ps, vals, propIdx + 1);
          return Err(MissingValue);
        }
        cur := Insert(cur, name, cur.entries[name] + [vals[propIdx]]);
      }
      propIdx := propIdx + 1;
    }
    return Ok(cur);
  }

  /** Once a property has no value, the rest of the loop keeps the error. */
  lemma {:induction false} ErrorStays(m: Columns, ps: seq<Prop>, vals: seq<real>, k: nat)
    requires Valid(m) && 0 < k <= |ps| && DistributeUpTo(m, ps, vals, k).Err?
    ensures Distribute(m, ps, vals) == DistributeUpTo(m, ps, vals, k)
    decreases |ps| - k
  {
    if k < |ps| {
      ErrorStays(m, ps, vals, k + 1);
    }
  }

  /** The vertex loop: `vertex_count` records read from the file, each placed as it is read. */
  method ReadVertices(f: ByteFile, h: Header, num: Numerics) returns (r: Result<Gathered, PlyError>)
    requires f.Valid()
    modifies f
    ensures f.Valid()
    ensures r == Progress(h.props, RecordReader(h, num), f.data[old(f.pos)..], VertexCount(h))
    ensures r.Ok? ==> r.value.rest == f.data[f.pos..]
  {
    ghost var body := f.data[f.pos..];
    ghost var read := RecordReader(h, num);
    var ks := KindsOf(h.props);
    var positions: seq<seq<real>> := [];
    var columns := MakeColumns(h.props);
    var i := 0;
    while i < VertexCount(h)
      invariant f.Valid() && i <= VertexCount(h)
      invariant Progress(h.props, read, body, i) == Ok(Gathered(positions, columns, f.data[f.pos..]))
    {
      ghost var g := Gathered(positions, columns, f.data[f.pos..]);
      var data := ReadRecord(f, h, ks, num);
      if data.Err? {
        ProgressFails(h.props, read, body, i, g);
        ProgressErrorStays(h.props, read, body, i + 1, VertexCount(h));
        return Err(data.error);
      }
      var pos := Position(data.value);
      positions := positions + [pos];
      var next := DistributeRecord(columns, h.props, data.value);
      ProgressStep(h.props, read, body, i, g, data.value, f.data[f.pos..]);
      if next.Err? {
        ProgressErrorStays(h.props, read, body, i + 1, VertexCount(h));
        return Err(next.error);
      }
      columns := next.value;
      i := i + 1;
    }
    return Ok(Gathered(positions, columns, f.data[f.pos..]));
  }

  /** One record in the format the header declares. */
  method ReadRecord(f: ByteFile, h: Header, ks: seq<Kind>, num: Numerics) returns (data: Result<seq<real>, PlyError>)
    requires f.Valid() && ks == KindsOf(h.props)
    modifies f
    ensures f.Valid()
    ensures Completed(data, RecordReader(h, num)(f.data[old(f.pos)..]), f.data[f.pos..])
  {
    if h.binary {
      data := ReadBinaryRecord(f, ks, h.little, num);
    } else {
      data := ReadAsciiRecord(f, ks, num);
    }
  }

  /** A record that cannot be read ends the loop with its error. */
  lemma ProgressFails(ps: seq<Prop>, read: Reader, body: seq<Byte>, i: nat, g: Gathered)
    requires Progress(ps, read, body, i) == Ok(g) && read(g.rest).Err?
    ensures Progress(ps, read, body, i + 1) == Err(read(g.rest).error)
  {
  }

  /** A record that is read is placed: its position appended and its values distributed. */
  lemma ProgressStep(ps: seq<Prop>, read: Reader, body: seq<Byte>, i: nat, g: Gathered, vals: seq<real>, next: seq<Byte>)
    requires Progress(ps, read, body, i) == Ok(g) && read(g.rest) == Ok((vals, next))
    ensures Valid(g.columns)
    ensures Progress(ps, read, body, i + 1) ==
      match Distribute(g.columns, ps, vals)
      case Err(e) => Err(e)
      case Ok(cols) => Ok(Gathered(g.positions + [Position(vals)], cols, next))
  {
  }

  /** Once a record fails, the rest of the vertex loop keeps the error. */
  lemma {:induction false} ProgressErrorStays(ps: seq<Prop>, read: Reader, body: seq<Byte>, k: nat, n: nat)
    requires 0 < k <= n && Progress(ps, read, body, k).Err?
    ensures Progress(ps, read, body, n) == Progress(ps, read, body, k)
    decreases n - k
  {
    if k < n {
      ProgressErrorStays(ps, read, body, k + 1, n);
    }
  }
}
