# document-embeddings: a verified model

document-embeddings is two things. One is a browser demo that loads a query dataset and a corpus dataset of text embeddings into an in-browser analytical database. It runs a vector-similarity query over them and shows the results as tables. The other is a Python script that computes the embeddings.

This project models in Dafny the parts of both that hold their logic:

- **Arrow-to-rows conversion** (`example/src/utils.ts`, module `ArrowConvert`). A query result is an Apache Arrow table: a schema of field names and a list of record batches. It becomes an array of row records. Vector values become arrays. `null` and other non-vector objects throw.
- **Cell formatting** (`example/src/utils.ts`, module `CellFormat`):
  - Falsy values show as "N/A".
  - Arrays are formatted element by element. An array longer than `n` is cut to its first and last `⌊n/2⌋` elements around "..." and bracketed.
  - Numbers use `toFixed(precision)` when a precision is given, otherwise `toString()`.
- **The table view** (`example/src/App.tsx`, module `TableView`):
  - The run colouriser `mapSwitchesToColor`. Its tag toggles at every adjacent change of key.
  - The row colours and the per-cell `formatCell(row[col], 10, 3)` call.
  - The view's state: `handleMapping`, and the gate that shows the similarity table only once both datasets' columns are mapped.
- **The input card** (`example/src/card.tsx`, module `InputCard`): `areSetsEqual`, `isLoaded`, and `handleUpload`. `handleUpload` registers a dataset under `local_query.parquet` or `local_corpus.parquet`.
- **The column mapper** (`example/src/mapper.tsx`, module `ColumnMapper`) and **the file selector** (`example/src/fileselect.tsx`, module `FileSelect`): component state as classes, with their handlers as methods.
- **The embedding script** (`scripts/embeddings.py`, module `Embeddings`):
  - `batch_generator` and the batching loop of `embed`.
  - `twod_array_to_list_array` and the column naming of `join`.
  - The model-name check of `init_model`.

Supporting modules:

- `Wrappers` holds `Option` and `Result`.
- `JsValues` models the JavaScript values the code inspects: `typeof`, truthiness and `!==`.

## How things are modelled

**Code that mutates state.** Where the source changes state step by step, the model is imperative; everywhere else it is pure.

- The Arrow conversion fills an `array<Row>` with the source's three nested loops, on top of `VectorToArray`'s `new Array` loop and `formatArray`'s push loop.
- `mapSwitchesToColor`, `areSetsEqual` and `batch_generator` are loops.
- The modelled `useState` variables are class fields. Their handlers are methods with `modifies` clauses. The three that are not class fields are listed under "## Left out".

Each method is proved against a specification function: `ExpectedRow`, `Elide`/`FormatAll`, `TagAt`, `Chunks`, `EmbedAsWritten`. The lemmas beside each function state what the source promises about it.

**Functions and callbacks passed in as parameters.** The model does not interpret JavaScript's number rendering or the model's inference. Each is a function-typed parameter:

- `Display` stands for `toFixed`, `toString`, and the `toString()` of other values.
- `infer` maps a list of documents to a matrix.

The database calls are also not interpreted. `handleUpload` returns which registration it makes, and a flag says whether the awaited call succeeded. `onFileSelect` and `onChange` callbacks are the handlers' return values.

**Behaviour the model keeps exactly as the code has it:**

- An empty array is truthy, so `formatCell([], n)` is `""` for `n ≥ 0` and `"[...]"` for `n < 0`, not "N/A". This is stated by `CellFormat.EmptyArrayElides`.
- `typeof null` is `"object"` and `null` is not a Vector, so a null cell makes the conversion throw rather than giving a Null cell. This is stated by `ArrowConvert.NonVectorObjectsThrow`.
- A batch that lacks a field writes nothing for it, so the key is never set to `undefined`. Row `i` holds the field only when some batch that has the field has more than `i` rows (`ArrowConvert.ConvertedCell`).
- The conversion writes `rows[i]` with the in-batch index `i`, so with more than one batch, row `i` of the result is not the `i`-th row of the batches concatenated. The model captures this behaviour as written (`ConvertArrowDataToJS`) and also gives the corrected version; see Findings.
- The colouriser compares keys with `!==`. Arrays (every converted vector cell is a fresh array) and other objects therefore never count as equal, even when their contents are equal.

## Model

| member | source | states |
|---|---|---|
| JsValues.IsVector | example/src/utils.ts:5-7 | `value instanceof Vector`: true exactly for Arrow Vectors, so other objects and plain arrays fail the cast |
| JsValues.Truthy | example/src/utils.ts:80-82 | a value is falsy exactly when it is `undefined`, `null`, `false`, `0`, `0n` or the empty string; every object, an empty array included, is truthy |
| JsValues.StrictEquals | example/src/App.tsx:55 | `===` holds only for equal values of the same `typeof`, holds for equal primitives, and never holds for symbols, functions, arrays, Vectors or other objects |
| JsValues.TypeOf | example/src/utils.ts:29-48 | `typeof` is "object" exactly for null, arrays, Vectors and other objects, and is always one of the eight type names |
| ArrowConvert.BatchWithinTable | example/src/utils.ts:19-25 | no batch has more rows than the table, so every write `rows[i]` is in range |
| ArrowConvert.NonObjectsKept | example/src/utils.ts:29-47 | numbers, strings, booleans and every other non-object value cast without error to themselves |
| ArrowConvert.NonVectorObjectsThrow | example/src/utils.ts:39-42 | null, plain arrays and non-Vector objects make the cast throw |
| ArrowConvert.VectorToArray | example/src/utils.ts:9-16 | the result is an array of the vector's length whose element i is `vector.get(i)` |
| ArrowConvert.CastValue | example/src/utils.ts:28-48 | the cast throws exactly for non-Vector objects; otherwise a Vector becomes the array of its items and anything else is kept |
| ArrowConvert.LastWriteIsLastBatch | example/src/utils.ts:21-54 | row i gets a value for field f exactly when some batch with child f has more than i rows; the value is then the one from the last such batch |
| ArrowConvert.BeyondLargestBatch | example/src/utils.ts:25-50 | a row index at or beyond every batch's row count is never written |
| ArrowConvert.RowAfterIsExpected | example/src/utils.ts:21-54 | processing the fields in schema order leaves each row holding the cast cell of every field that has one |
| ArrowConvert.WriteColumn | example/src/utils.ts:25-51 | the row loop succeeds iff every cell of the column casts; it then sets exactly rows offset..offset+numRows-1, each to its cast cell, and leaves the other rows unchanged |
| ArrowConvert.WriteField | example/src/utils.ts:22-53 | the batch loop for one field succeeds iff every cell of that field casts; afterwards each row holds the cast value of the last batch that writes it |
| ArrowConvert.ConvertArrowDataToJS | example/src/utils.ts:18-56 | fails iff some cell of a schema field does not cast; otherwise returns `table.numRows` rows, row k equal to the reference row `ExpectedRow` |
| ArrowConvert.ConvertedCell | example/src/utils.ts:18-56 | a converted row holds field f iff f is in the schema and some batch with child f is longer than the row index; the value is then the cast value from the last such batch |
| ArrowConvert.RowBeyondLargestBatchEmpty | example/src/utils.ts:19-55 | rows past the largest batch come out as `{}` |
| ArrowConvert.SecondBatchOverwritesFirst | example/src/utils.ts:50 | with two one-row batches, row 0 holds the second batch's value and row 1 is empty; with offsets the rows hold both values in order |
| ArrowConvert.CellAtBatch | example/src/utils.ts:50 | with offsets, row i of batch j is table row `NumRows(bs[..j]) + i` |
| ArrowConvert.WriteFieldAtOffsets | example/src/utils.ts:22-53 | the batch loop with a running offset succeeds iff every cell of the field casts; each table row then holds its own batch's cast value |
| ArrowConvert.ConvertWithOffsets | example/src/utils.ts:18-56 | fails iff some cell does not cast; otherwise returns `numRows` rows, row k equal to the cast of table row k (`IntendedRow`) |
| ArrowConvert.IntendedRowOfBatch | example/src/utils.ts:18-56 | with offsets, row i of batch j lands at result row `NumRows(bs[..j]) + i` and holds the batch's cast value under exactly the schema fields the batch carries |
| CellFormat.FormatNumber | example/src/utils.ts:63-65 | with a precision, the number's `toFixed(precision)`; without one, its `toString()` |
| CellFormat.FormatArray | example/src/utils.ts:66-79 | succeeds iff every element is a number or a string, and then formats each element in order; otherwise the first bad element's `typeof` is named in "unsupported type …" |
| CellFormat.RelativeIndex | example/src/utils.ts:89-90 | a `slice` argument resolves into 0..length and is kept when already in range |
| CellFormat.ElidedItemsShape | example/src/utils.ts:87-91 | for 0 ≤ n < length, the shown items are the first ⌊n/2⌋ elements, "...", then the last ⌊n/2⌋: 2⌊n/2⌋+1 items |
| CellFormat.NegativeBoundElides | example/src/utils.ts:87-91 | a negative n cuts every non-empty array to `slice(0, ⌊n/2⌋)` followed by "...", with no tail |
| CellFormat.EmptyArrayElides | example/src/utils.ts:80-94 | the empty array is not "N/A": it shows "" for n ≥ 0 and "[...]" for n < 0 |
| CellFormat.ElideTenDigitsToFour | example/src/utils.ts:87-91 | ten elements "0".."9" with n = 4 give "[0, 1, ..., 8, 9]" |
| CellFormat.FormatCell | example/src/utils.ts:58-100 | falsy gives "N/A"; only arrays fail, exactly when an element is neither number nor string; an array gives the elided join; a number uses the precision rule; a string stays verbatim; `true` gives "true"; anything else gives its `toString()` |
| TableView.MapSwitchesToColor | example/src/App.tsx:40-62 | one tag per key, the first `color1`; equal adjacent keys keep the tag and unequal ones toggle it; tag i is fixed by the parity of the boundaries before i |
| TableView.AdjacentTags | example/src/App.tsx:54-59 | the parity tags keep the colour across `===` neighbours and toggle it across `!==` neighbours |
| TableView.SameTagIffEvenBoundaries | example/src/App.tsx:54-59 | with distinct colours, two rows carry the same tag iff an even number of key changes lie between them |
| TableView.RunsExample | example/src/App.tsx:40-62 | keys a, a, b, b, a get tags X, X, Y, Y, X |
| TableView.SeparateRunsOfOneKeyDiffer | example/src/App.tsx:55 | two separate runs of one key can get different tags: in a, b, c, a the first a is X and the last is Y |
| TableView.ColumnValues | example/src/App.tsx:96-98 | row i's value under the colour column, undefined when absent |
| TableView.RowColors | example/src/App.tsx:94-102 | without a (truthy) colour column every row is ""; with one, rows get "bg-gray-100"/"" by the colouriser over that column |
| TableView.RenderCell | example/src/App.tsx:120 | a cell is `formatCell(row[col], 10, 3)`: a missing or falsy value is "N/A", a number uses `toFixed(3)`, an array is elided at 10 elements and fails exactly on a non-number, non-string element, the empty array is "", a string is verbatim, `true` is "true", anything else its `toString()` |
| TableView.TableViewState.constructor | example/src/App.tsx:132-142 | the view starts not loaded with no column mapped |
| TableView.TableViewState.HandleIsLoadedChange | example/src/App.tsx:144-146 | sets the loaded flag and nothing else |
| TableView.TableViewState.HandleMapping | example/src/App.tsx:148-156 | "Query" sets the query column pair, "Corpus" the corpus pair; any other kind changes nothing; the other pair is kept |
| TableView.TableViewState.Similarity | example/src/App.tsx:226-241 | the similarity table is shown iff all four columns are chosen; it reads the two registered files and is coloured by the query column |
| InputCard.ToLower | example/src/card.tsx:37 | lower-casing keeps the length and lowers each character |
| InputCard.FileNames | example/src/card.tsx:37 | the datasets register as "local_query.parquet" and "local_corpus.parquet", two distinct names |
| InputCard.AreSetsEqual | example/src/card.tsx:15-21 | false when the sizes differ, and true exactly when the two sets are equal |
| InputCard.SubsetOfSameSize | example/src/card.tsx:15-21 | a subset of the same size is the whole set (why the size check plus one inclusion suffices) |
| InputCard.UploadGrowsIdempotently | example/src/card.tsx:47 | an upload keeps the loaded datasets, adds its own, and repeating it changes nothing |
| InputCard.LoadedStaysLoaded | example/src/card.tsx:47 | once both datasets are loaded, further uploads keep the expected state |
| InputCard.LoadedIffBoth | example/src/card.tsx:33-34 | for sets of dataset names, the expected state is reached iff both "Query" and "Corpus" are in |
| InputCard.CardWithInputFiles.constructor | example/src/card.tsx:31 | nothing is loaded at first |
| InputCard.CardWithInputFiles.IsLoaded | example/src/card.tsx:33-34 | loaded iff the loaded set is {"Query", "Corpus"} |
| InputCard.CardWithInputFiles.HandleUpload | example/src/card.tsx:36-48 | an unknown file type throws "Not supported"; FILE registers a file handle and DEFAULT a URL under the dataset's file name; only a completed registration adds the dataset |
| ColumnMapper.OrEmpty | example/src/mapper.tsx:37 | the given value, or '' when it is absent |
| ColumnMapper.ChangeReplacesOneChoice | example/src/mapper.tsx:39-43 | 'Embeddings' replaces the second choice, any other field type the first; the other choice is kept |
| ColumnMapper.Mapper.constructor | example/src/mapper.tsx:37 | the choices start as the initial values, or '' |
| ColumnMapper.Mapper.OnValueChange | example/src/mapper.tsx:39-50 | the choices are updated; `onChange` fires with both choices iff both are non-empty |
| FileSelect.FindLabel | example/src/fileselect.tsx:78-80 | the label of the first default with that value, absent iff none has it |
| FileSelect.FileSelector.constructor | example/src/fileselect.tsx:44-46 | closed, nothing selected, nothing uploaded |
| FileSelect.FileSelector.ButtonLabel | example/src/fileselect.tsx:78-83 | the selected default's label, else the uploaded file's name, else "Select file..." |
| FileSelect.FileSelector.CheckOpacity | example/src/fileselect.tsx:99-105 | an entry's check is "opacity-100" exactly when it is the selection, otherwise "opacity-0" |
| FileSelect.FileSelector.SetOpen | example/src/fileselect.tsx:69 | opening or closing changes only the popover state |
| FileSelect.FileSelector.HandleFileUpload | example/src/fileselect.tsx:49-56 | the first chosen file becomes the upload, clears the default and is reported as FILE; no file, no change |
| FileSelect.FileSelector.HandleDefaultFileSelect | example/src/fileselect.tsx:58-63 | selects the default, drops the upload, reports it as DEFAULT and closes the popover |
| Embeddings.ChunksConcatenate | scripts/embeddings.py:48-52 | the batches concatenate back to the input, in order |
| Embeddings.ChunksSizes | scripts/embeddings.py:48-52 | every batch is non-empty and at most the size long; all but the last are exactly the size |
| Embeddings.ChunksCount | scripts/embeddings.py:48-52 | there are ⌈n / size⌉ batches |
| Embeddings.BatchGenerator | scripts/embeddings.py:48-52 | a negative size raises `ValueError`, size 0 yields nothing, a positive size yields the batches `Chunks` |
| Embeddings.VStack | scripts/embeddings.py:115 | stacking fails exactly on an empty list |
| Embeddings.EffectiveBatchSize | scripts/embeddings.py:104-105 | a non-positive batch size stands for the number of documents |
| Embeddings.Embed | scripts/embeddings.py:90-115 | as written: one inference on the whole list per batch, stacked; fails exactly for no documents |
| Embeddings.EmbedAsWrittenRows | scripts/embeddings.py:107-115 | as written, n documents in batches of b come back as n·⌈n / b⌉ rows |
| Embeddings.EmbedTwoDocsInBatchesOfOne | scripts/embeddings.py:111 | two documents with batch size 1 give four rows |
| Embeddings.EmbedBatches | scripts/embeddings.py:104-115 | corrected: one inference per batch on that batch, stacked in order; fails exactly for no documents |
| Embeddings.EmbedBatchedPerDocument | scripts/embeddings.py:107-115 | corrected, with any batch size, row i is document i's embedding: one row per document, in order |
| Embeddings.DefaultBatchSizeAgrees | scripts/embeddings.py:95-105 | at the default batch size the as-written and corrected versions agree |
| Embeddings.EmbedText | scripts/embeddings.py:134-137 | `embeddings(text, model)` is `embed` at the default batch size, which is a single batch, so its result equals the corrected loop's |
| Embeddings.TwodArrayToListArray | scripts/embeddings.py:140-143 | raises `AssertionError` unless the array is 2-D; otherwise one entry per row, each as long as a row |
| Embeddings.TwodRowsConcatenate | scripts/embeddings.py:140-143 | the row entries concatenate back to the array's elements |
| Embeddings.TwodEntry | scripts/embeddings.py:143 | entry j of row i is element (i, j) in row-major order |
| Embeddings.Join | scripts/embeddings.py:146-150 | the frame has columns `name` and `name + "_embedding"`, which are distinct; it holds the text and one embedding per row of the array |
| Embeddings.InitModel | scripts/embeddings.py:118-131 | the model is wrapped iff the path's name is "jina-embeddings-v3"; otherwise `ValueError("Model <name> not supported")` |
| Embeddings.DefaultModelPathSupported | scripts/embeddings.py:31-38 | the command line's default model path passes the check; the commented-out v2 path does not |

## Left out

- JavaScript numbers are reals. NaN, the infinities and -0 are not represented, so neither are their truthiness or their `!==` behaviour.
- Number rendering (`toFixed`, `toString`) and `value.toString()` are not interpreted. They are the uninterpreted fields of `CellFormat.Display`. The precision is a `nat`. `toFixed`'s `RangeError` for a precision above 100 or below 0, and its truncation of a fractional precision, are not modelled. The only call site (example/src/App.tsx:120) passes 3.
- CellFormat.FormatCell: `n` is an integer. A fractional `n` (possible in the JavaScript signature) is not modelled.
- ArrowConvert.ConvertArrowDataToJS relies on Arrow's guarantee that each child column has its batch's length (`WellFormed`). `table.numRows` is the sum of batch row counts. A Vector's items, and the values `column.get(i)` returns, are abstract values. `getChild` returning null is a missing map key.
- TableView.Lookup reads an absent key as `undefined`. On a plain JavaScript object, a key such as "constructor" reads an inherited `Object.prototype` member instead, and `rows[i]["__proto__"] = v` at example/src/utils.ts:50 sets the prototype rather than a key. Field names that collide with `Object.prototype` members are not modelled.
- Reference identity: arrays, Vectors and objects compare as unequal under `!==`, even the same object. Conversion never hands the same array to two cells.
- Three `useState` variables are not class fields. `queryNames` and `corpusNames` of `TableView` (example/src/App.tsx:133-134) are not modelled. `DataTable`'s `data` (example/src/App.tsx:70) is a parameter of `TableView.RowColors` and `TableView.RenderCell`, not state: the query that sets it is not modelled.
- React rendering, effects and batching: state setters are immediate field updates. The stale closure in `onValueChange` is not modelled: two changes within one render both read the old `values`. Neither is the effect that reports `isLoaded`.
- Asynchrony: the `db.connect()`/`query` calls in `DataTable`, and the lack of cancellation when a newer query supersedes an in-flight one, are not modelled. Neither is the interleaving of two concurrent `handleUpload` calls. A rejected registration is the `registered` flag. The AsyncDuckDB registration calls are the `Registration` value; the query calls are not modelled, and `TableViewState.Similarity` gives only the query's arguments.
- The SQL text of `queryTable` and `querySimilarity`: example/src/queries.ts is not part of this model. `Similarity` returns the arguments the similarity query is built from.
- TableView.TableViewState.HandleMapping: the source's `type` argument has the type `FileType` of example/src/file.tsx, whose only values are "Query" and "Corpus". The model takes any string, so its "changes nothing" case covers inputs the source's type excludes.
- InputCard.ToLower lowers ASCII letters only. It is only applied to "Query" and "Corpus".
- The popover, the search box, and the hidden file input's `click()` in `FileSelector` are presentation.
- Embeddings: the model's `encode`, the tokenizer and `_encode` (unused), `padding`, `truncation`, `model_task` and `no_grad` are outside the `infer` parameter. Loading the model and tokenizer in `init_model` is the caller's `model` and `tokenizer` arguments; a failing load is not modelled.
- Embeddings.Join does not model pandas index alignment in `pd.concat(axis=1)`. A text Series with a non-default index would misalign with the embedding column's fresh index.
- Embeddings.VStack does not check that the stacked matrices have equal widths.
- The command-line parsing, `read_parquet`, `save`, `_main` and `main` of scripts/embeddings.py are file I/O and process exit codes.

## Findings

| source | as written | input that shows it | evidently intended | confidence | as-written member | corrected member |
|---|---|---|---|---|---|---|
| scripts/embeddings.py:111 | each batch runs `self._infer(docs, model_task)` on the whole document list | docs ["a", "b"], batch_size 1: four rows for two documents (in general n·⌈n/b⌉) | `self._infer(batch, model_task)`: one row per document, in order | high; not executed (with the default batch size -1 there is one batch and the two agree) | Embeddings.EmbedTwoDocsInBatchesOfOne | Embeddings.EmbedBatchedPerDocument |
| example/src/utils.ts:50 | `rows[i][field.name] = castedValue` with the in-batch index `i` | a table of two one-row batches with x = 1 and x = 2: row 0 holds 2 and row 1 is `{}` | write at the batch's offset plus `i`, so that row k is row k of the batches concatenated | high; not executed (single-batch results are unaffected) | ArrowConvert.SecondBatchOverwritesFirst | ArrowConvert.ConvertWithOffsets |
