/**
 * `convertArrowDataToJS` and `vectorToArray` (example/src/utils.ts): an
 * Apache Arrow table, column-oriented and split into record batches,
 * becomes an array of row records keyed by field name.
 *
 * The table is plain data: the schema's field names, and per batch its row
 * count and the columns it carries (`getChild(name)` is a map lookup,
 * `column.get(i)` a sequence index). The table's `numRows` is the sum of
 * its batches' row counts, as Arrow defines it.
 */
module ArrowConvert {
  import opened Wrappers
  import opened JsValues

  /** One record batch: its row count and its child column per field name. */
  datatype Batch = Batch(numRows: nat, children: map<string, seq<JsValue>>)

  /** A table: the schema's field names, in order, and its record batches. */
  datatype Table = Table(fields: seq<string>, batches: seq<Batch>)

  /** A converted row: field name to value; a field not written is absent. */
  type Row = map<string, JsValue>

  /** The only way conversion fails: `Error("Unsupported arrow type, failed to cast object")`. */
  datatype ConvertError = UnsupportedArrowType

  /** Arrow's guarantee: every child column of a batch has the batch's length. */
  ghost predicate WellFormed(bs: seq<Batch>) {
    forall j, f :: 0 <= j < |bs| && f in bs[j].children ==> |bs[j].children[f]| == bs[j].numRows
  }

  /** `table.numRows`: the sum of the batches' row counts. */
  function NumRows(bs: seq<Batch>): nat {
    if bs == [] then 0 else bs[0].numRows + NumRows(bs[1..])
  }

  /** No batch is longer than the table. */
  lemma {:induction false} BatchWithinTable(bs: seq<Batch>, j: nat)
    requires j < |bs|
    ensures bs[j].numRows <= NumRows(bs)
  {
    if j > 0 {
      BatchWithinTable(bs[1..], j - 1);
    }
  }

  // ---------------------------------------------------------------------
  // The cast of one raw value (the `switch (typeof value)`)

  /** The cast does not throw: the value is not an object, or is a Vector. */
  predicate Castable(v: JsValue) {
    TypeOf(v) != "object" || IsVector(v)
  }

  /** The cast's result: a Vector becomes an array of its items, anything else is kept. */
  function Casted(v: JsValue): JsValue {
    if IsVector(v) then JsArray(v.items) else v
  }

  /** Numbers, strings and booleans are kept unchanged; so is every other non-object kind. */
  lemma NonObjectsKept(v: JsValue)
    requires TypeOf(v) != "object"
    ensures Castable(v) && Casted(v) == v
  {
  }

  /** `null` and every object that is not a Vector (a plain array included) throw. */
  lemma NonVectorObjectsThrow(v: JsValue)
    requires v.JsNull? || v.JsObject? || v.JsArray?
    ensures !Castable(v)
  {
  }

  /**
   * `vectorToArray`: a fresh array of the vector's length whose element i
   * is `vector.get(i)`; elements are copied, not cast again.
   */
  method VectorToArray(vector: JsValue) returns (r: JsValue)
    requires IsVector(vector)
    ensures r.JsArray? && |r.elems| == |vector.items|
    ensures forall i :: 0 <= i < |vector.items| ==> r.elems[i] == vector.items[i]
  {
    var newArray := new JsValue[|vector.items|](_ => JsUndefined);
    for i := 0 to |vector.items|
      invariant forall k :: 0 <= k < i ==> newArray[k] == vector.items[k]
    {
      var value := vector.items[i];
      newArray[i] := value;
    }
    r := JsArray(newArray[..]);
  }

  /** The `switch (typeof value)` of the conversion loop. */
  method CastValue(value: JsValue) returns (r: Result<JsValue, ConvertError>)
    ensures r.Err? <==> !Castable(value)
    ensures r.Ok? ==> r.value == Casted(value)
  {
    var kind := TypeOf(value);
    if kind == "number" || kind == "string" || kind == "boolean" {
      r := Ok(value);
    } else if kind == "object" {
      if !IsVector(value) {
        return Err(UnsupportedArrowType);
      }
      var arr := VectorToArray(value);
      assert arr.elems == value.items;
      r := Ok(arr);
    } else {
      r := Ok(value);
    }
  }

  // ---------------------------------------------------------------------
  // What the conversion computes

  /**
   * The raw value that ends up in row i under field f: the one from the
   * LAST batch that has a child f and more than i rows (the write index is
   * the in-batch index, so later batches overwrite earlier ones).
   */
  function LastWrite(bs: seq<Batch>, f: string, i: nat): Option<JsValue>
    requires WellFormed(bs)
  {
    if bs == [] then None
    else
      var b := bs[|bs| - 1];
      if f in b.children && i < b.numRows then Some(b.children[f][i])
      else LastWrite(bs[..|bs| - 1], f, i)
  }

  /** Whether batch j writes row i of field f. */
  predicate Writes(bs: seq<Batch>, j: int, f: string, i: nat) {
    0 <= j < |bs| && f in bs[j].children && i < bs[j].numRows
  }

  /**
   * LastWrite, stated without recursion: it is `Some` exactly when some
   * batch writes (i, f), and then it is that batch's value for the last such
   * batch.
   */
  lemma {:induction false} LastWriteIsLastBatch(bs: seq<Batch>, f: string, i: nat)
    requires WellFormed(bs)
    ensures LastWrite(bs, f, i).Some? <==> exists j :: Writes(bs, j, f, i)
    ensures LastWrite(bs, f, i).Some? ==>
      exists j :: Writes(bs, j, f, i) && LastWrite(bs, f, i).value == bs[j].children[f][i] &&
        forall j' :: j < j' < |bs| ==> !Writes(bs, j', f, i)
  {
    if bs != [] {
      var n := |bs| - 1;
      var init := bs[..n];
      assert WellFormed(init) by {
        forall j, g | 0 <= j < |init| && g in init[j].children
          ensures |init[j].children[g]| == init[j].numRows
        {
          assert init[j] == bs[j];
        }
      }
      LastWriteIsLastBatch(init, f, i);
      if !Writes(bs, n, f, i) {
        forall j | Writes(bs, j, f, i) ensures Writes(init, j, f, i) {
          assert init[j] == bs[j];
        }
        if LastWrite(bs, f, i).Some? {
          var j :| Writes(init, j, f, i) && LastWrite(init, f, i).value == init[j].children[f][i] &&
            forall j' :: j < j' < |init| ==> !Writes(init, j', f, i);
          assert bs[j] == init[j];
          assert Writes(bs, j, f, i);
          forall j' | j < j' < |bs| ensures !Writes(bs, j', f, i) {
            if j' < n {
              assert bs[j'] == init[j'];
              assert !Writes(init, j', f, i);
            }
          }
        }
      } else {
        assert Writes(bs, n, f, i);
      }
    }
  }

  /** Rows at or beyond the largest batch's row count are never written. */
  lemma {:induction false} BeyondLargestBatch(bs: seq<Batch>, f: string, i: nat)
    requires WellFormed(bs)
    requires forall j :: 0 <= j < |bs| ==> bs[j].numRows <= i
    ensures LastWrite(bs, f, i) == None
  {
    LastWriteIsLastBatch(bs, f, i);
  }

  /** The row the conversion produces at index i (a reference definition). */
  function ExpectedRow(t: Table, i: nat): Row
    requires WellFormed(t.batches)
  {
    map f | f in t.fields && LastWrite(t.batches, f, i).Some? :: Casted(LastWrite(t.batches, f, i).value)
  }

  /** Every cell the batches hold under field f casts without throwing. */
  ghost predicate FieldCastable(bs: seq<Batch>, f: string)
    requires WellFormed(bs)
  {
    forall j, i :: 0 <= j < |bs| && f in bs[j].children && 0 <= i < bs[j].numRows ==>
      Castable(bs[j].children[f][i])
  }

  /** Every cell of every schema field casts without throwing. */
  ghost predicate AllCastable(t: Table)
    requires WellFormed(t.batches)
  {
    forall f :: f in t.fields ==> FieldCastable(t.batches, f)
  }

  // ---------------------------------------------------------------------
  // The conversion, as the loops do it

  /** Where the conversion puts row i of a batch: at i (as written), or at the batch's offset plus i. */
  datatype Placement = InBatchIndex | TableIndex

  /** The raw value that ends up in row k under field f, for either placement. */
  function Cell(p: Placement, bs: seq<Batch>, f: string, k: nat): Option<JsValue>
    requires WellFormed(bs)
  {
    match p
    case InBatchIndex => LastWrite(bs, f, k)
    case TableIndex => CellAt(bs, f, k)
  }

  /** `rows[k]` with field f set to o's value when o is `Some`, untouched otherwise. */
  function Put(m: Row, f: string, o: Option<JsValue>): Row {
    if o.Some? then m[f := Casted(o.value)] else m
  }

  /** The rows' state once the fields `fs` have been processed. */
  function RowAfter(fs: seq<string>, bs: seq<Batch>, k: nat, p: Placement): Row
    requires WellFormed(bs)
  {
    if fs == [] then map[]
    else Put(RowAfter(fs[..|fs| - 1], bs, k, p), fs[|fs| - 1], Cell(p, bs, fs[|fs| - 1], k))
  }

  /** Processing every field in turn yields the row holding the cast of each field's cell. */
  lemma {:induction false} RowAfterIsExpected(fs: seq<string>, bs: seq<Batch>, k: nat, p: Placement)
    requires WellFormed(bs)
    ensures RowAfter(fs, bs, k, p) ==
      map f | f in fs && Cell(p, bs, f, k).Some? :: Casted(Cell(p, bs, f, k).value)
  {
    if fs != [] {
      var init := fs[..|fs| - 1];
      RowAfterIsExpected(init, bs, k, p);
      assert fs == init + [fs[|fs| - 1]];
    }
  }

  /**
   * The innermost loop: row i of `column` (for i below the batch's row
   * count) is cast and stored in `rows[offset + i][name]`; the source's
   * loop writes at `offset` 0.
   */
  method WriteColumn(rows: array<Row>, column: seq<JsValue>, offset: nat, numRows: nat, name: string) returns (ok: bool)
    requires offset + numRows <= rows.Length && |column| == numRows
    modifies rows
    ensures ok <==> forall i :: 0 <= i < numRows ==> Castable(column[i])
    ensures ok ==> forall k :: 0 <= k < rows.Length ==>
      rows[k] == if offset <= k < offset + numRows then old(rows[k])[name := Casted(column[k - offset])] else old(rows[k])
  {
    for i := 0 to numRows
      invariant forall k :: 0 <= k < i ==> Castable(column[k])
      invariant forall k :: 0 <= k < rows.Length ==>
        rows[k] == if offset <= k < offset + i then old(rows[k])[name := Casted(column[k - offset])] else old(rows[k])
    {
      var value := column[i];
      var castedValue := CastValue(value);
      if castedValue.Err? {
        return false;
      }
      rows[offset + i] := rows[offset + i][name := castedValue.value];
    }
    return true;
  }

  /** A prefix of well-formed batches one batch longer is well formed, and is the shorter prefix plus that batch. */
  lemma PrefixWellFormed(bs: seq<Batch>, j: nat)
    requires WellFormed(bs) && j < |bs|
    ensures bs[..j + 1] == bs[..j] + [bs[j]]
    ensures WellFormed(bs[..j]) && WellFormed(bs[..j + 1])
  {
    var done := bs[..j + 1];
    assert done == bs[..j] + [bs[j]];
    forall jj, g | 0 <= jj < j + 1 && g in done[jj].children
      ensures |done[jj].children[g]| == done[jj].numRows
    {
      assert done[jj] == bs[jj];
    }
  }

  /** Field f casts throughout a prefix one batch longer when it does in the shorter prefix and in that batch. */
  lemma PrefixCastable(bs: seq<Batch>, j: nat, f: string)
    requires WellFormed(bs) && j < |bs| && WellFormed(bs[..j]) && WellFormed(bs[..j + 1])
    requires FieldCastable(bs[..j], f)
    requires f in bs[j].children ==> forall i :: 0 <= i < bs[j].numRows ==> Castable(bs[j].children[f][i])
    ensures FieldCastable(bs[..j + 1], f)
  {
    var done := bs[..j + 1];
    forall jj, i | 0 <= jj < j + 1 && f in done[jj].children && 0 <= i < done[jj].numRows
      ensures Castable(done[jj].children[f][i])
    {
      assert done[jj] == bs[jj];
      if jj < j {
        assert done[jj] == bs[..j][jj];
      }
    }
  }

  /**
   * One more batch, written at its in-batch indices: a row the batch
   * covers receives its cast value, whatever the batches before left
   * there, and every other row keeps its value.
   */
  lemma {:induction false} LastWriteAppendPut(o: Row, r: Row, init: seq<Batch>, b: Batch, f: string, k: nat)
    requires WellFormed(init) && WellFormed(init + [b])
    requires r == Put(o, f, LastWrite(init, f, k))
    ensures Put(o, f, LastWrite(init + [b], f, k)) ==
      if f in b.children && k < b.numRows then r[f := Casted(b.children[f][k])] else r
  {
    var bs := init + [b];
    assert bs[..|bs| - 1] == init;
    assert bs[|bs| - 1] == b;
  }

  /** The batch loop for one field: every batch that has the field writes its rows. */
  method WriteField(rows: array<Row>, bs: seq<Batch>, name: string) returns (ok: bool)
    requires WellFormed(bs)
    requires forall j :: 0 <= j < |bs| ==> bs[j].numRows <= rows.Length
    modifies rows
    ensures ok <==> FieldCastable(bs, name)
    ensures ok ==> forall k :: 0 <= k < rows.Length ==> rows[k] == Put(old(rows[k]), name, LastWrite(bs, name, k))
  {
    for j := 0 to |bs|
      invariant WellFormed(bs[..j])
      invariant FieldCastable(bs[..j], name)
      invariant forall k :: 0 <= k < rows.Length ==> rows[k] == Put(old(rows[k]), name, LastWrite(bs[..j], name, k))
    {
      var batch := bs[j];
      PrefixWellFormed(bs, j);
      ghost var before := rows[..];
      if name in batch.children {
        ok := WriteColumn(rows, batch.children[name], 0, batch.numRows, name);
        if !ok {
          assert !FieldCastable(bs, name);
          return false;
        }
      }
      PrefixCastable(bs, j, name);
      forall k | 0 <= k < rows.Length
        ensures rows[k] == Put(old(rows[k]), name, LastWrite(bs[..j + 1], name, k))
      {
        LastWriteAppendPut(old(rows[k]), before[k], bs[..j], batch, name, k);
      }
    }
    assert bs[..|bs|] == bs;
    return true;
  }

  /**
   * `convertArrowDataToJS`: `table.numRows` rows, each starting as `{}`;
   * then for each field, for each batch holding that field, each of the
   * batch's rows i gets `rows[i][field] = cast(column.get(i))`. A value
   * that does not cast throws, and no rows are returned.
   */
  method ConvertArrowDataToJS(t: Table) returns (r: Result<seq<Row>, ConvertError>)
    requires WellFormed(t.batches)
    ensures r.Err? <==> !AllCastable(t)
    ensures r.Ok? ==> |r.value| == NumRows(t.batches)
    ensures r.Ok? ==> forall k :: 0 <= k < |r.value| ==> r.value[k] == ExpectedRow(t, k)
  {
    var rows := new Row[NumRows(t.batches)](_ => map[]);
    forall j | 0 <= j < |t.batches| ensures t.batches[j].numRows <= rows.Length {
      BatchWithinTable(t.batches, j);
    }
    for fi := 0 to |t.fields|
      invariant forall g :: g in t.fields[..fi] ==> FieldCastable(t.batches, g)
      invariant forall k :: 0 <= k < rows.Length ==> rows[k] == RowAfter(t.fields[..fi], t.batches, k, InBatchIndex)
    {
      var field := t.fields[fi];
      var ok := WriteField(rows, t.batches, field);
      if !ok {
        return Err(UnsupportedArrowType);
      }
      assert t.fields[..fi + 1][..fi] == t.fields[..fi];
      assert t.fields[..fi + 1] == t.fields[..fi] + [field];
    }
    assert t.fields[..|t.fields|] == t.fields;
    forall k | 0 <= k < rows.Length ensures rows[k] == ExpectedRow(t, k) {
      RowAfterIsExpected(t.fields, t.batches, k, InBatchIndex);
    }
    return Ok(rows[..]);
  }

  /**
   * The converted rows, read through LastWrite's characterization: row i
   * holds field f exactly when f is in the schema and some batch with
   * child f has more than i rows, and then it holds the cast of the last
   * such batch's value.
   */
  lemma ConvertedCell(t: Table, i: nat, f: string)
    requires WellFormed(t.batches)
    ensures f in ExpectedRow(t, i) <==> f in t.fields && exists j :: Writes(t.batches, j, f, i)
    ensures f in ExpectedRow(t, i) ==>
      exists j :: Writes(t.batches, j, f, i) && ExpectedRow(t, i)[f] == Casted(t.batches[j].children[f][i]) &&
        forall j' :: j < j' < |t.batches| ==> !Writes(t.batches, j', f, i)
  {
    LastWriteIsLastBatch(t.batches, f, i);
  }

  /** A row at or beyond every batch's row count stays `{}`. */
  lemma RowBeyondLargestBatchEmpty(t: Table, i: nat)
    requires WellFormed(t.batches)
    requires forall j :: 0 <= j < |t.batches| ==> t.batches[j].numRows <= i
    ensures ExpectedRow(t, i) == map[]
  {
    forall f | f in t.fields ensures LastWrite(t.batches, f, i) == None {
      BeyondLargestBatch(t.batches, f, i);
    }
  }

  // ---------------------------------------------------------------------
  // Rows numbered across batches

  /** The table's row count grows by the row count of the batch appended last. */
  lemma {:induction false} NumRowsAppend(bs: seq<Batch>, b: Batch)
    ensures NumRows(bs + [b]) == NumRows(bs) + b.numRows
  {
    if bs != [] {
      assert (bs + [b])[1..] == bs[1..] + [b];
      NumRowsAppend(bs[1..], b);
    }
  }

  /**
   * The raw value of table row k in field f, counting rows across batches
   * in order: the batches before the last hold rows below their total row
   * count, the last batch the next `numRows`.
   */
  function CellAt(bs: seq<Batch>, f: string, k: nat): Option<JsValue>
    requires WellFormed(bs)
  {
    if bs == [] then None
    else
      var init := bs[..|bs| - 1];
      var b := bs[|bs| - 1];
      var offset := NumRows(init);
      if k < offset then CellAt(init, f, k)
      else if k - offset < b.numRows && f in b.children then Some(b.children[f][k - offset])
      else None
  }

  /** No row at or beyond the table's row count holds anything. */
  lemma {:induction false} CellAtBeyond(bs: seq<Batch>, f: string, k: nat)
    requires WellFormed(bs) && NumRows(bs) <= k
    ensures CellAt(bs, f, k) == None
  {
    if bs != [] {
      var init := bs[..|bs| - 1];
      assert bs == init + [bs[|bs| - 1]];
      NumRowsAppend(init, bs[|bs| - 1]);
    }
  }

  /**
   * Row i of batch j is table row `NumRows(bs[..j]) + i`: its value when
   * the batch has the field, nothing when it does not.
   */
  lemma {:induction false} CellAtBatch(bs: seq<Batch>, f: string, j: nat, i: nat)
    requires WellFormed(bs) && j < |bs| && i < bs[j].numRows
    ensures CellAt(bs, f, NumRows(bs[..j]) + i) == if f in bs[j].children then Some(bs[j].children[f][i]) else None
    decreases |bs|
  {
    var n := |bs| - 1;
    var init := bs[..n];
    assert bs == init + [bs[n]];
    if j < n {
      assert init[..j] == bs[..j];
      assert init[j] == bs[j];
      NumRowsAppend(init[..j], init[j]);
      assert init[..j + 1] == init[..j] + [init[j]];
      assert init == init[..j + 1] + init[j + 1..];
      NumRowsSplit(init, j + 1);
      CellAtBatch(init, f, j, i);
    } else {
      assert bs[..j] == init;
    }
  }

  /** The row counts of a prefix and of the rest add up to the table's. */
  lemma {:induction false} NumRowsSplit(bs: seq<Batch>, j: nat)
    requires j <= |bs|
    ensures NumRows(bs) == NumRows(bs[..j]) + NumRows(bs[j..])
  {
    if j > 0 {
      assert bs[1..][..j - 1] == bs[..j][1..];
      assert bs[1..][j - 1..] == bs[j..];
      NumRowsSplit(bs[1..], j - 1);
    } else {
      assert bs[j..] == bs;
    }
  }

  /**
   * One more batch on the table: a row the new batch does not cover keeps
   * what the batches before it put there, and a row it covers, which they
   * left alone, receives the new batch's cast value.
   */
  lemma {:induction false} CellAtAppendPut(o: Row, r: Row, init: seq<Batch>, b: Batch, f: string, k: nat)
    requires WellFormed(init) && WellFormed(init + [b])
    requires r == Put(o, f, CellAt(init, f, k))
    ensures Put(o, f, CellAt(init + [b], f, k)) ==
      if f in b.children && NumRows(init) <= k < NumRows(init) + b.numRows then r[f := Casted(b.children[f][k - NumRows(init)])] else r
  {
    var bs := init + [b];
    assert bs[..|bs| - 1] == init;
    assert bs[|bs| - 1] == b;
    if NumRows(init) <= k {
      CellAtBeyond(init, f, k);
    }
  }

  /** The row the conversion evidently intends at index k: every schema field's value at table row k. */
  function IntendedRow(t: Table, k: nat): Row
    requires WellFormed(t.batches)
  {
    map f | f in t.fields && CellAt(t.batches, f, k).Some? :: Casted(CellAt(t.batches, f, k).value)
  }

  /** The batch loop for one field with a running offset: batch j writes its rows from `NumRows(bs[..j])` on. */
  method WriteFieldAtOffsets(rows: array<Row>, bs: seq<Batch>, name: string) returns (ok: bool)
    requires WellFormed(bs)
    requires NumRows(bs) <= rows.Length
    modifies rows
    ensures ok <==> FieldCastable(bs, name)
    ensures ok ==> forall k :: 0 <= k < rows.Length ==> rows[k] == Put(old(rows[k]), name, CellAt(bs, name, k))
  {
    var offset := 0;
    for j := 0 to |bs|
      invariant offset == NumRows(bs[..j])
      invariant WellFormed(bs[..j])
      invariant FieldCastable(bs[..j], name)
      invariant forall k :: 0 <= k < rows.Length ==> rows[k] == Put(old(rows[k]), name, CellAt(bs[..j], name, k))
    {
      var batch := bs[j];
      ghost var done := bs[..j + 1];
      PrefixWellFormed(bs, j);
      NumRowsAppend(bs[..j], batch);
      NumRowsSplit(bs, j + 1);
      ghost var before := rows[..];
      if name in batch.children {
        var column := batch.children[name];
        ok := WriteColumn(rows, column, offset, batch.numRows, name);
        if !ok {
          assert !FieldCastable(bs, name);
          return false;
        }
      }
      forall k | 0 <= k < rows.Length
        ensures rows[k] == Put(old(rows[k]), name, CellAt(done, name, k))
      {
        CellAtAppendPut(old(rows[k]), before[k], bs[..j], batch, name, k);
      }
      PrefixCastable(bs, j, name);
      offset := offset + batch.numRows;
    }
    assert bs[..|bs|] == bs;
    return true;
  }

  /**
   * `convertArrowDataToJS` with each batch's rows written after those of
   * the batches before it: row k of the result is table row k.
   */
  method ConvertWithOffsets(t: Table) returns (r: Result<seq<Row>, ConvertError>)
    requires WellFormed(t.batches)
    ensures r.Err? <==> !AllCastable(t)
    ensures r.Ok? ==> |r.value| == NumRows(t.batches)
    ensures r.Ok? ==> forall k :: 0 <= k < |r.value| ==> r.value[k] == IntendedRow(t, k)
  {
    var rows := new Row[NumRows(t.batches)](_ => map[]);
    for fi := 0 to |t.fields|
      invariant forall g :: g in t.fields[..fi] ==> FieldCastable(t.batches, g)
      invariant forall k :: 0 <= k < rows.Length ==> rows[k] == RowAfter(t.fields[..fi], t.batches, k, TableIndex)
    {
      var field := t.fields[fi];
      var ok := WriteFieldAtOffsets(rows, t.batches, field);
      if !ok {
        return Err(UnsupportedArrowType);
      }
      assert t.fields[..fi + 1][..fi] == t.fields[..fi];
      assert t.fields[..fi + 1] == t.fields[..fi] + [field];
    }
    assert t.fields[..|t.fields|] == t.fields;
    forall k | 0 <= k < rows.Length ensures rows[k] == IntendedRow(t, k) {
      RowAfterIsExpected(t.fields, t.batches, k, TableIndex);
    }
    return Ok(rows[..]);
  }

  /**
   * With offsets, row i of batch j comes out as result row `NumRows(bs[..j]) + i`,
   * holding the cast of that batch's value under every schema field the batch has.
   */
  lemma IntendedRowOfBatch(t: Table, j: nat, i: nat, f: string)
    requires WellFormed(t.batches) && j < |t.batches| && i < t.batches[j].numRows
    ensures NumRows(t.batches[..j]) + i < NumRows(t.batches)
    ensures f in IntendedRow(t, NumRows(t.batches[..j]) + i) <==> f in t.fields && f in t.batches[j].children
    ensures f in t.fields && f in t.batches[j].children ==>
              IntendedRow(t, NumRows(t.batches[..j]) + i)[f] == Casted(t.batches[j].children[f][i])
  {
    CellAtBatch(t.batches, f, j, i);
    NumRowsSplit(t.batches, j);
    assert t.batches[j..][1..] == t.batches[j + 1..];
  }

  /**
   * As written, a table of two one-row batches converts to a first row
   * holding the SECOND batch's value and an empty second row; with
   * offsets, the rows hold the two values in order.
   */
  lemma SecondBatchOverwritesFirst()
    ensures var t := Table(["x"], [Batch(1, map["x" := [JsNumber(1.0)]]), Batch(1, map["x" := [JsNumber(2.0)]])]);
            WellFormed(t.batches) && NumRows(t.batches) == 2 &&
            ExpectedRow(t, 0) == map["x" := JsNumber(2.0)] && ExpectedRow(t, 1) == map[] &&
            IntendedRow(t, 0) == map["x" := JsNumber(1.0)] && IntendedRow(t, 1) == map["x" := JsNumber(2.0)]
  {
    var b1 := Batch(1, map["x" := [JsNumber(1.0)]]);
    var b2 := Batch(1, map["x" := [JsNumber(2.0)]]);
    var t := Table(["x"], [b1, b2]);
    assert [b1, b2][..1] == [b1];
    assert [b1][..0] == [];
    assert NumRows([b1]) == 1;
    assert LastWrite(t.batches, "x", 0) == Some(JsNumber(2.0));
    assert LastWrite([b1], "x", 1) == None;
    assert LastWrite(t.batches, "x", 1) == None;
    assert CellAt(t.batches, "x", 0) == Some(JsNumber(1.0));
    assert CellAt(t.batches, "x", 1) == Some(JsNumber(2.0));
  }
}
