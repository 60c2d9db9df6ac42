/**
 * The table logic of example/src/App.tsx: the run-group colouriser
 * `mapSwitchesToColor`, the row-class selection of `DataTable`, its per-cell
 * `formatCell(row[col], 10, 3)` call, and the column selections of
 * `TableView` with the guard that decides when the similarity table is
 * shown. Rendering, React hooks and the asynchronous query are not modelled.
 */
module TableView {
  import opened Wrappers
  import opened JsValues
  import opened ArrowConvert
  import opened CellFormat

  // ---------------------------------------------------------------------
  // mapSwitchesToColor

  /** The number of boundaries `keys[j] !== keys[j - 1]` for j in 1..i. */
  function Boundaries(keys: seq<JsValue>, i: nat): nat
    requires i < |keys|
  {
    if i == 0 then 0
    else Boundaries(keys, i - 1) + if StrictEquals(keys[i], keys[i - 1]) then 0 else 1
  }

  /** The tag of row i: the first colour after an even number of boundaries, the second after an odd number. */
  function TagAt(keys: seq<JsValue>, i: nat, color1: string, color2: string): string
    requires i < |keys|
  {
    if Boundaries(keys, i) % 2 == 0 then color1 else color2
  }

  /** The other colour of the pair. */
  function Toggle(tag: string, color1: string, color2: string): string {
    if tag == color1 then color2 else color1
  }

  /**
   * `mapSwitchesToColor(array, color1, color2)`: one tag per key, starting
   * with `color1` and switching colour whenever a key is `!==` to the one
   * before it.
   */
  method MapSwitchesToColor(keys: seq<JsValue>, color1: string, color2: string) returns (colors: seq<string>)
    ensures |colors| == |keys|
    ensures |keys| > 0 ==> colors[0] == color1
    ensures forall i :: 0 <= i < |keys| ==> colors[i] == TagAt(keys, i, color1, color2)
    ensures forall i :: 1 <= i < |keys| && StrictEquals(keys[i], keys[i - 1]) ==> colors[i] == colors[i - 1]
    ensures forall i :: 1 <= i < |keys| && !StrictEquals(keys[i], keys[i - 1]) ==>
                          colors[i] == Toggle(colors[i - 1], color1, color2)
  {
    colors := [];
    if |keys| == 0 {
      return colors;
    }
    colors := colors + [color1];
    var c := [color1, color2];
    var cswitch := false;
    for i := 1 to |keys|
      invariant |colors| == i
      invariant cswitch <==> Boundaries(keys, i - 1) % 2 == 1
      invariant forall k :: 0 <= k < i ==> colors[k] == TagAt(keys, k, color1, color2)
    {
      if !StrictEquals(keys[i], keys[i - 1]) {
        cswitch := !cswitch;
      }
      assert cswitch <==> Boundaries(keys, i) % 2 == 1;
      var tag := c[if cswitch then 1 else 0];
      assert tag == TagAt(keys, i, color1, color2);
      colors := colors + [tag];
    }
    AdjacentTags(keys, colors, color1, color2);
  }

  /** Every row after the first takes its tag from the row before: kept for a `===` key, toggled otherwise. */
  lemma AdjacentTags(keys: seq<JsValue>, colors: seq<string>, color1: string, color2: string)
    requires |colors| == |keys|
    requires forall i :: 0 <= i < |keys| ==> colors[i] == TagAt(keys, i, color1, color2)
    ensures forall i :: 1 <= i < |keys| && StrictEquals(keys[i], keys[i - 1]) ==> colors[i] == colors[i - 1]
    ensures forall i :: 1 <= i < |keys| && !StrictEquals(keys[i], keys[i - 1]) ==>
                          colors[i] == Toggle(colors[i - 1], color1, color2)
  {
    forall i | 1 <= i < |keys|
      ensures colors[i] == if StrictEquals(keys[i], keys[i - 1]) then colors[i - 1] else Toggle(colors[i - 1], color1, color2)
    {
      assert colors[i - 1] == TagAt(keys, i - 1, color1, color2);
      assert colors[i] == TagAt(keys, i, color1, color2);
      assert Boundaries(keys, i) == Boundaries(keys, i - 1) + if StrictEquals(keys[i], keys[i - 1]) then 0 else 1;
    }
  }

  /**
   * Two rows share a tag exactly when an even number of boundaries lies
   * between them (for two distinct colours): the tag follows the count of
   * switches, not the key's value.
   */
  lemma {:induction false} SameTagIffEvenBoundaries(keys: seq<JsValue>, j: nat, i: nat, color1: string, color2: string)
    requires j <= i < |keys| && color1 != color2
    ensures Boundaries(keys, j) <= Boundaries(keys, i)
    ensures TagAt(keys, i, color1, color2) == TagAt(keys, j, color1, color2) <==>
            (Boundaries(keys, i) - Boundaries(keys, j)) % 2 == 0
  {
    if j < i {
      SameTagIffEvenBoundaries(keys, j, i - 1, color1, color2);
    }
    ParityOfDifference(Boundaries(keys, j), Boundaries(keys, i));
  }

  /** Two counts have the same parity exactly when their difference is even. */
  lemma ParityOfDifference(a: nat, b: nat)
    requires a <= b
    ensures a % 2 == b % 2 <==> (b - a) % 2 == 0
  {
    var d := b - a;
    assert b == a + d;
    assert (a + d) % 2 == (a % 2 + d % 2) % 2;
  }

  /** Keys "a", "a", "b", "b", "a" are tagged X, X, Y, Y, X. */
  lemma RunsExample()
    ensures var keys := [JsString("a"), JsString("a"), JsString("b"), JsString("b"), JsString("a")];
            [TagAt(keys, 0, "X", "Y"), TagAt(keys, 1, "X", "Y"), TagAt(keys, 2, "X", "Y"),
             TagAt(keys, 3, "X", "Y"), TagAt(keys, 4, "X", "Y")] == ["X", "X", "Y", "Y", "X"]
  {
  }

  /** Equal keys in separate runs can get different tags: "a", "b", "c", "a" starts with X and ends with Y. */
  lemma SeparateRunsOfOneKeyDiffer()
    ensures var keys := [JsString("a"), JsString("b"), JsString("c"), JsString("a")];
            keys[0] == keys[3] && TagAt(keys, 0, "X", "Y") == "X" && TagAt(keys, 3, "X", "Y") == "Y"
  {
  }

  // ---------------------------------------------------------------------
  // DataTable: row classes and cells

  /** `row[name]`: an absent field reads as `undefined`. */
  function Lookup(row: Row, name: string): JsValue {
    if name in row then row[name] else JsUndefined
  }

  /** `data.rows.map((row) => row[colorColumn])`. */
  function ColumnValues(rows: seq<Row>, name: string): (keys: seq<JsValue>)
    ensures |keys| == |rows|
    ensures forall i :: 0 <= i < |rows| ==> keys[i] == Lookup(rows[i], name)
  {
    seq(|rows|, i requires 0 <= i < |rows| => Lookup(rows[i], name))
  }

  /** The highlighted row class. */
  const Highlight := "bg-gray-100"

  /**
   * The `colors` of `DataTable`: with a (truthy) colour column, the run
   * tags of that column's values in "bg-gray-100" and ""; otherwise "" for
   * every row.
   */
  method RowColors(rows: seq<Row>, colorColumn: Option<string>) returns (colors: seq<string>)
    ensures |colors| == |rows|
    ensures forall i :: 0 <= i < |rows| ==> colors[i] == Highlight || colors[i] == ""
    ensures (colorColumn == None || colorColumn == Some("")) ==> forall i :: 0 <= i < |rows| ==> colors[i] == ""
    ensures colorColumn.Some? && colorColumn.value != "" ==>
      forall i :: 0 <= i < |rows| ==> colors[i] == TagAt(ColumnValues(rows, colorColumn.value), i, Highlight, "")
  {
    if colorColumn.Some? && colorColumn.value != "" {
      colors := MapSwitchesToColor(ColumnValues(rows, colorColumn.value), Highlight, "");
    } else {
      colors := seq(|rows|, _ => "");
    }
  }

  /** The cell text `formatCell(row[col], 10, 3)`. */
  method RenderCell(row: Row, col: string, d: Display) returns (r: Result<string, FormatError>)
    ensures col !in row ==> r == Ok("N/A")
    ensures col in row && !Truthy(row[col]) ==> r == Ok("N/A")
    ensures col in row && row[col].JsNumber? && Truthy(row[col]) ==> r == Ok(d.toFixed(row[col].num, 3))
    ensures col in row && row[col].JsArray? ==>
      (r.Err? <==> exists i :: 0 <= i < |row[col].elems| && !Formattable(row[col].elems[i]))
    ensures col in row && row[col].JsArray? && r.Ok? ==> r.value == Elide(FormatAll(row[col].elems, Some(3), d), 10)
    ensures r.Err? ==> col in row && row[col].JsArray?
    ensures col in row && row[col] == JsArray([]) ==> r == Ok("")
    ensures col in row && Truthy(row[col]) && row[col].JsString? ==> r == Ok(row[col].str)
    ensures col in row && row[col] == JsBoolean(true) ==> r == Ok("true")
    ensures col in row && Truthy(row[col]) &&
            !(row[col].JsArray? || row[col].JsNumber? || row[col].JsString? || row[col].JsBoolean?) ==>
              r == Ok(d.valueToString(row[col]))
  {
    r := FormatCell(Lookup(row, col), 10, Some(3), d);
  }

  // ---------------------------------------------------------------------
  // TableView: column selections

  /** The arguments of the similarity `DataTable`: the query's files and columns, and its colour column. */
  datatype SimilarityTable = SimilarityTable(
    queryFile: string,
    corpusFile: string,
    queryEmbeddingColumn: string,
    corpusEmbeddingColumn: string,
    queryColumn: string,
    corpusColumn: string,
    colorColumn: string)

  /** The state of `TableView`. */
  class TableViewState {
    var isLoaded: bool
    var queryEmbeddingColumn: Option<string>
    var corpusEmbeddingColumn: Option<string>
    var queryColumn: Option<string>
    var corpusColumn: Option<string>

    /** The initial state: nothing loaded, nothing selected. */
    constructor ()
      ensures !isLoaded
      ensures queryEmbeddingColumn == None && corpusEmbeddingColumn == None
      ensures queryColumn == None && corpusColumn == None
    {
      isLoaded := false;
      queryEmbeddingColumn, corpusEmbeddingColumn := None, None;
      queryColumn, corpusColumn := None, None;
    }

    /** `handleIsLoadedChange`. */
    method HandleIsLoadedChange(loaded: bool)
      modifies this`isLoaded
      ensures isLoaded == loaded
    {
      isLoaded := loaded;
    }

    /**
     * `handleMapping(column, embedding, type)`: "Query" sets the query pair,
     * "Corpus" the corpus pair, any other type changes nothing.
     */
    method HandleMapping(column: string, embedding: string, kind: string)
      modifies this
      ensures isLoaded == old(isLoaded)
      ensures kind == "Query" ==> queryColumn == Some(column) && queryEmbeddingColumn == Some(embedding)
      ensures kind != "Query" ==> queryColumn == old(queryColumn) && queryEmbeddingColumn == old(queryEmbeddingColumn)
      ensures kind == "Corpus" ==> corpusColumn == Some(column) && corpusEmbeddingColumn == Some(embedding)
      ensures kind != "Corpus" ==> corpusColumn == old(corpusColumn) && corpusEmbeddingColumn == old(corpusEmbeddingColumn)
    {
      if kind == "Query" {
        queryColumn := Some(column);
        queryEmbeddingColumn := Some(embedding);
      } else if kind == "Corpus" {
        corpusColumn := Some(column);
        corpusEmbeddingColumn := Some(embedding);
      }
    }

    /**
     * The similarity table, when shown: only once all four selections are
     * made, on the two registered files, coloured by the query column.
     */
    function Similarity(): (r: Option<SimilarityTable>)
      reads this
      ensures r.Some? <==> queryEmbeddingColumn.Some? && corpusEmbeddingColumn.Some? && queryColumn.Some? && corpusColumn.Some?
      ensures r.Some? ==> r.value.colorColumn == queryColumn.value && r.value.queryColumn == queryColumn.value
      ensures r.Some? ==> r.value.corpusColumn == corpusColumn.value
      ensures r.Some? ==> r.value.queryEmbeddingColumn == queryEmbeddingColumn.value
      ensures r.Some? ==> r.value.corpusEmbeddingColumn == corpusEmbeddingColumn.value
      ensures r.Some? ==> r.value.queryFile == "local_query.parquet" && r.value.corpusFile == "local_corpus.parquet"
    {
      if queryEmbeddingColumn.Some? && corpusEmbeddingColumn.Some? && corpusColumn.Some? && queryColumn.Some? then
        Some(SimilarityTable("local_query.parquet", "local_corpus.parquet",
                             queryEmbeddingColumn.value, corpusEmbeddingColumn.value,
                             queryColumn.value, corpusColumn.value, queryColumn.value))
      else None
    }
  }

  /** Mapping the query and then the corpus, from the initial state, shows the similarity table. */
  method MapBothShowsSimilarity(qc: string, qe: string, cc: string, ce: string)
  {
    var view := new TableViewState();
    assert view.Similarity() == None;
    view.HandleMapping(qc, qe, "Query");
    assert view.Similarity() == None;
    view.HandleMapping(cc, ce, "Corpus");
    assert view.Similarity().Some? && view.Similarity().value.colorColumn == qc;
  }
}
