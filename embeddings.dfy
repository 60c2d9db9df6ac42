/**
 * The data logic of scripts/embeddings.py: `batch_generator`, the batching
 * loop of `JinaEmbeddings3Model.embed`, `twod_array_to_list_array`, the
 * column naming of `join` and the model-name check of `init_model`.
 *
 * The model's inference (`self.model.encode(docs, task=...)`) is a
 * function parameter from a list of documents to a matrix of embeddings;
 * tokenizer and model loading, torch, pandas and parquet I/O are not
 * modelled.
 */
module Embeddings {
  import opened Wrappers

  /** The Python exceptions the modelled code raises. */
  datatype PyError = ValueError(message: string) | AssertionError

  /** `islice`'s complaint about a negative stop. */
  const IsliceStopMessage := "Stop argument for islice() must be None or an integer: 0 <= x <= sys.maxsize."

  /** `np.vstack`'s complaint about an empty list. */
  const VStackEmptyMessage := "need at least one array to concatenate"

  function Min(a: int, b: int): int {
    if a <= b then a else b
  }

  /** The concatenation of a list of lists. */
  function Flatten<T>(xss: seq<seq<T>>): seq<T> {
    if xss == [] then [] else xss[0] + Flatten(xss[1..])
  }

  lemma {:induction false} FlattenAppend<T>(xss: seq<seq<T>>, xs: seq<T>)
    ensures Flatten(xss + [xs]) == Flatten(xss) + xs
  {
    if xss != [] {
      assert (xss + [xs])[1..] == xss[1..] + [xs];
      FlattenAppend(xss[1..], xs);
    }
  }

  // ---------------------------------------------------------------------
  // batch_generator

  /** The batches of a positive size: consecutive slices of `size` elements, the last one possibly shorter. */
  function Chunks<T>(xs: seq<T>, size: nat): seq<seq<T>>
    requires size > 0
    decreases |xs|
  {
    if xs == [] then []
    else
      var k := Min(size, |xs|);
      [xs[..k]] + Chunks(xs[k..], size)
  }

  /** Concatenating the batches gives back the input, in order. */
  lemma {:induction false} ChunksConcatenate<T>(xs: seq<T>, size: nat)
    requires size > 0
    ensures Flatten(Chunks(xs, size)) == xs
    decreases |xs|
  {
    if xs != [] {
      var k := Min(size, |xs|);
      ChunksConcatenate(xs[k..], size);
      assert Chunks(xs, size)[1..] == Chunks(xs[k..], size);
      assert xs == xs[..k] + xs[k..];
    }
  }

  /** Every batch is non-empty and holds at most `size` elements; all but the last hold exactly `size`. */
  lemma {:induction false} ChunksSizes<T>(xs: seq<T>, size: nat)
    requires size > 0
    ensures forall i :: 0 <= i < |Chunks(xs, size)| ==> 0 < |Chunks(xs, size)[i]| <= size
    ensures forall i :: 0 <= i < |Chunks(xs, size)| - 1 ==> |Chunks(xs, size)[i]| == size
    decreases |xs|
  {
    if xs != [] {
      var k := Min(size, |xs|);
      var cs := Chunks(xs, size);
      var rest := Chunks(xs[k..], size);
      ChunksSizes(xs[k..], size);
      assert cs == [xs[..k]] + rest;
      forall i | 0 <= i < |cs| ensures 0 < |cs[i]| <= size && (i < |cs| - 1 ==> |cs[i]| == size) {
        if i > 0 {
          assert cs[i] == rest[i - 1];
        } else if |cs| > 1 {
          assert rest != [];
          assert xs[k..] != [];
        }
      }
    }
  }

  /** There are ⌈n / size⌉ batches, none for an empty input. */
  lemma {:induction false} ChunksCount<T>(xs: seq<T>, size: nat)
    requires size > 0
    ensures |Chunks(xs, size)| == (|xs| + size - 1) / size
    decreases |xs|
  {
    if xs != [] {
      var k := Min(size, |xs|);
      ChunksCount(xs[k..], size);
      assert |Chunks(xs, size)| == 1 + |Chunks(xs[k..], size)|;
      if |xs| <= size {
        assert xs[k..] == [];
        DivUnique(|xs| + size - 1, size, 1, |xs| - 1);
      } else {
        var a := |xs| - size + size - 1;
        assert |xs[k..]| + size - 1 == a;
        assert a + size == |xs| + size - 1;
        DivShift(a, size);
      }
    }
  }

  lemma DivShift(a: nat, d: nat)
    requires d > 0
    ensures (a + d) / d == a / d + 1
  {
    var q, r := a / d, a % d;
    assert a == d * q + r;
    assert a + d == d * (q + 1) + r;
    DivUnique(a + d, d, q + 1, r);
  }

  lemma MulLess(d: int, a: int, b: int)
    requires d > 0 && a < b
    ensures d * a + d <= d * b
  {
    var k := b - a;
    assert d * b == d * a + d * k;
    assert d * k == d + d * (k - 1);
    assert d * (k - 1) >= 0;
  }

  /** Euclidean division has one quotient for a remainder in range. */
  lemma DivUnique(n: int, d: int, q: int, r: int)
    requires d > 0 && 0 <= r < d && n == d * q + r
    ensures n / d == q
  {
    var q', r' := n / d, n % d;
    assert n == d * q' + r';
    if q' > q {
      MulLess(d, q, q');
      assert false;
    } else if q' < q {
      MulLess(d, q', q);
      assert false;
    }
  }

  /**
   * `batch_generator(iterable, batch_size)`: takes `islice(it, batch_size)`
   * from one iterator until it comes back empty. A negative size raises
   * `ValueError`, a size of 0 yields no batch at all, a positive size yields
   * `Chunks`.
   */
  method BatchGenerator<T>(iterable: seq<T>, batchSize: int) returns (r: Result<seq<seq<T>>, PyError>)
    ensures r.Err? <==> batchSize < 0
    ensures r.Err? ==> r.error == ValueError(IsliceStopMessage)
    ensures batchSize == 0 ==> r == Ok([])
    ensures batchSize > 0 ==> r == Ok(Chunks(iterable, batchSize))
  {
    if batchSize < 0 {
      return Err(ValueError(IsliceStopMessage));
    }
    var pos := 0;
    var batches: seq<seq<T>> := [];
    var batch := iterable[pos..Min(pos + batchSize, |iterable|)];
    while batch != []
      invariant 0 <= pos <= |iterable|
      invariant batch == iterable[pos..Min(pos + batchSize, |iterable|)]
      invariant batchSize == 0 ==> batches == []
      invariant batchSize > 0 ==> batches + Chunks(iterable[pos..], batchSize) == Chunks(iterable, batchSize)
      decreases |iterable| - pos
    {
      if batchSize > 0 {
        var rest := iterable[pos..];
        assert rest[..Min(batchSize, |rest|)] == batch;
        assert rest[Min(batchSize, |rest|)..] == iterable[pos + |batch|..];
        assert Chunks(rest, batchSize) == [batch] + Chunks(iterable[pos + |batch|..], batchSize);
      }
      batches := batches + [batch];
      pos := pos + |batch|;
      batch := iterable[pos..Min(pos + batchSize, |iterable|)];
    }
    if batchSize > 0 {
      assert pos == |iterable|;
      assert Chunks(iterable[pos..], batchSize) == [];
      assert batches + [] == batches;
    }
    return Ok(batches);
  }

  // ---------------------------------------------------------------------
  // embed

  /** A 2-D array of embeddings, as rows. */
  type Matrix = seq<seq<real>>

  /** `np.vstack(embeddings)`: the rows of all matrices, in order; an empty list raises. */
  function VStack(ms: seq<Matrix>): (r: Result<Matrix, PyError>)
    ensures r.Err? <==> ms == []
  {
    if ms == [] then Err(ValueError(VStackEmptyMessage)) else Ok(Flatten(ms))
  }

  /** The batch size `embed` uses: a non-positive one stands for `len(docs)`. */
  function EffectiveBatchSize(batchSize: int, n: nat): (size: nat)
    ensures batchSize <= 0 ==> size == n
    ensures batchSize > 0 ==> size == batchSize
  {
    if batchSize <= 0 then n else batchSize
  }

  /** k copies of one matrix. */
  function Repeat(m: Matrix, k: nat): (ms: seq<Matrix>)
    ensures |ms| == k && forall i :: 0 <= i < k ==> ms[i] == m
  {
    seq(k, _ => m)
  }

  /**
   * What `embed` returns as written: one inference per batch, each on the
   * WHOLE document list, stacked. An empty document list has no batch, and
   * stacking nothing raises.
   */
  function EmbedAsWritten(docs: seq<string>, batchSize: int, infer: seq<string> -> Matrix): Result<Matrix, PyError> {
    if docs == [] then VStack([])
    else VStack(Repeat(infer(docs), |Chunks(docs, EffectiveBatchSize(batchSize, |docs|))|))
  }

  /**
   * `JinaEmbeddings3Model.embed(docs, batch_size=...)`: replaces a
   * non-positive batch size by `len(docs)`, then for each batch appends
   * `self._infer(docs, ...)` and stacks the outputs.
   */
  method Embed(docs: seq<string>, batchSize: int, infer: seq<string> -> Matrix) returns (r: Result<Matrix, PyError>)
    ensures r == EmbedAsWritten(docs, batchSize, infer)
    ensures r.Err? <==> docs == []
  {
    var size := batchSize;
    if size <= 0 {
      size := |docs|;
    }
    var batches := BatchGenerator(docs, size);
    var bs := batches.value;
    var embeddings: seq<Matrix> := [];
    for i := 0 to |bs|
      invariant embeddings == Repeat(infer(docs), i)
    {
      var output := infer(docs);
      embeddings := embeddings + [output];
    }
    if docs == [] {
      assert size == 0 || bs == Chunks(docs, size) == [];
    }
    r := VStack(embeddings);
  }

  /** An inference that embeds each document on its own: row i is `embed(docs[i])`. */
  ghost predicate PerDocument(infer: seq<string> -> Matrix, embed: string -> seq<real>) {
    forall ds :: |infer(ds)| == |ds| && forall i :: 0 <= i < |ds| ==> infer(ds)[i] == embed(ds[i])
  }

  lemma {:induction false} FlattenRepeat(m: Matrix, k: nat)
    ensures |Flatten(Repeat(m, k))| == k * |m|
  {
    if k > 0 {
      assert Repeat(m, k)[1..] == Repeat(m, k - 1);
      FlattenRepeat(m, k - 1);
    }
  }

  /**
   * As written, `embed` returns ⌈n / b⌉ copies of the whole list's embeddings:
   * n·⌈n / b⌉ rows for n documents, not n.
   */
  lemma EmbedAsWrittenRows(docs: seq<string>, batchSize: int, infer: seq<string> -> Matrix)
    requires |infer(docs)| == |docs| && docs != []
    ensures var b := EffectiveBatchSize(batchSize, |docs|);
            EmbedAsWritten(docs, batchSize, infer).Ok? &&
            |EmbedAsWritten(docs, batchSize, infer).value| == |docs| * ((|docs| + b - 1) / b)
  {
    var b := EffectiveBatchSize(batchSize, |docs|);
    ChunksCount(docs, b);
    FlattenRepeat(infer(docs), |Chunks(docs, b)|);
  }

  /** Two documents with a batch size of 1 come back as four rows. */
  lemma EmbedTwoDocsInBatchesOfOne(infer: seq<string> -> Matrix)
    requires |infer(["a", "b"])| == 2
    ensures EmbedAsWritten(["a", "b"], 1, infer).Ok?
    ensures |EmbedAsWritten(["a", "b"], 1, infer).value| == 4
  {
    EmbedAsWrittenRows(["a", "b"], 1, infer);
  }

  /** The outputs of one inference per batch, each on its batch. */
  function InferEach(batches: seq<seq<string>>, infer: seq<string> -> Matrix): (ms: seq<Matrix>)
    ensures |ms| == |batches| && forall i :: 0 <= i < |batches| ==> ms[i] == infer(batches[i])
  {
    seq(|batches|, i requires 0 <= i < |batches| => infer(batches[i]))
  }

  /** What `embed` evidently intends: each batch is inferred on its own and the outputs are stacked in order. */
  function EmbedBatched(docs: seq<string>, batchSize: int, infer: seq<string> -> Matrix): Result<Matrix, PyError> {
    if docs == [] then VStack([])
    else VStack(InferEach(Chunks(docs, EffectiveBatchSize(batchSize, |docs|)), infer))
  }

  /** `embed` with the inference applied to the batch rather than to the whole list. */
  method EmbedBatches(docs: seq<string>, batchSize: int, infer: seq<string> -> Matrix) returns (r: Result<Matrix, PyError>)
    ensures r == EmbedBatched(docs, batchSize, infer)
    ensures r.Err? <==> docs == []
  {
    var size := batchSize;
    if size <= 0 {
      size := |docs|;
    }
    var batches := BatchGenerator(docs, size);
    var bs := batches.value;
    var embeddings: seq<Matrix> := [];
    for i := 0 to |bs|
      invariant embeddings == InferEach(bs[..i], infer)
    {
      var output := infer(bs[i]);
      assert bs[..i + 1] == bs[..i] + [bs[i]];
      embeddings := embeddings + [output];
    }
    assert bs[..|bs|] == bs;
    if docs == [] {
      assert size == 0 || bs == Chunks(docs, size) == [];
    }
    r := VStack(embeddings);
  }

  lemma {:induction false} FlattenPerDocument(bs: seq<seq<string>>, infer: seq<string> -> Matrix, embed: string -> seq<real>)
    requires PerDocument(infer, embed)
    ensures |Flatten(InferEach(bs, infer))| == |Flatten(bs)|
    ensures forall i :: 0 <= i < |Flatten(bs)| ==> Flatten(InferEach(bs, infer))[i] == embed(Flatten(bs)[i])
  {
    if bs != [] {
      var out := InferEach(bs, infer);
      FlattenPerDocument(bs[1..], infer, embed);
      assert out[1..] == InferEach(bs[1..], infer);
      assert Flatten(out) == infer(bs[0]) + Flatten(InferEach(bs[1..], infer));
      assert Flatten(bs) == bs[0] + Flatten(bs[1..]);
      assert |infer(bs[0])| == |bs[0]|;
      forall i | 0 <= i < |Flatten(bs)|
        ensures Flatten(out)[i] == embed(Flatten(bs)[i])
      {
        if i >= |bs[0]| {
          assert Flatten(out)[i] == Flatten(InferEach(bs[1..], infer))[i - |bs[0]|];
          assert Flatten(bs)[i] == Flatten(bs[1..])[i - |bs[0]|];
        }
      }
    }
  }

  /** Batched as intended, every document gets its own embedding, in order, whatever the batch size. */
  lemma EmbedBatchedPerDocument(docs: seq<string>, batchSize: int, infer: seq<string> -> Matrix, embed: string -> seq<real>)
    requires PerDocument(infer, embed) && docs != []
    ensures EmbedBatched(docs, batchSize, infer).Ok?
    ensures |EmbedBatched(docs, batchSize, infer).value| == |docs|
    ensures forall i :: 0 <= i < |docs| ==> EmbedBatched(docs, batchSize, infer).value[i] == embed(docs[i])
  {
    var b := EffectiveBatchSize(batchSize, |docs|);
    var cs := Chunks(docs, b);
    ChunksConcatenate(docs, b);
    assert cs != [];
    FlattenPerDocument(cs, infer, embed);
  }

  /**
   * With the default batch size (-1, as `embeddings` calls `embed`), there
   * is one batch holding every document, and the code as written agrees
   * with the intended one.
   */
  lemma DefaultBatchSizeAgrees(docs: seq<string>, batchSize: int, infer: seq<string> -> Matrix)
    requires batchSize <= 0
    ensures EmbedAsWritten(docs, batchSize, infer) == EmbedBatched(docs, batchSize, infer)
  {
    if docs != [] {
      var cs := Chunks(docs, |docs|);
      assert docs[..|docs|] == docs;
      assert Chunks(docs[|docs|..], |docs|) == [];
      assert cs == [docs];
      assert Repeat(infer(docs), 1) == InferEach(cs, infer);
    }
  }

  /**
   * `embeddings(text, model)`: `model.embed(docs)` with the default batch
   * size, which, being one batch, is also what the corrected loop returns.
   */
  method EmbedText(docs: seq<string>, infer: seq<string> -> Matrix) returns (r: Result<Matrix, PyError>)
    ensures r == EmbedAsWritten(docs, -1, infer)
    ensures r == EmbedBatched(docs, -1, infer)
    ensures r.Err? <==> docs == []
  {
    r := Embed(docs, -1, infer);
    DefaultBatchSizeAgrees(docs, -1, infer);
  }

  // ---------------------------------------------------------------------
  // twod_array_to_list_array and join

  /** A NumPy array: its shape and its elements in row-major order. */
  datatype NdArray = NdArray(shape: seq<nat>, data: seq<real>)

  function Product(s: seq<nat>): nat {
    if s == [] then 1 else s[0] * Product(s[1..])
  }

  lemma ProductOfTwo(s: seq<nat>)
    requires |s| == 2
    ensures Product(s) == s[0] * s[1]
  {
    assert s[1..][1..] == [];
    assert Product(s[1..]) == s[1] * Product(s[1..][1..]);
  }

  /** NumPy's guarantee: the array holds as many elements as its shape says. */
  ghost predicate WellShaped(x: NdArray) {
    |x.data| == Product(x.shape)
  }

  lemma RowWithin(i: nat, rows: nat, cols: nat)
    requires i < rows
    ensures i * cols + cols <= rows * cols
  {
    MulLess(cols + 1, i, rows);
    assert (i + 1) * cols <= rows * cols by {
      assert i + 1 <= rows;
    }
  }

  /** Row i of a well-shaped 2-D array: `x[i, :]`. */
  function RowOf(x: NdArray, i: nat): (row: seq<real>)
    requires WellShaped(x) && |x.shape| == 2 && i < x.shape[0]
    ensures |row| == x.shape[1]
  {
    ProductOfTwo(x.shape);
    RowWithin(i, x.shape[0], x.shape[1]);
    x.data[i * x.shape[1]..i * x.shape[1] + x.shape[1]]
  }

  /** The first k rows of a well-shaped 2-D array. */
  function Rows(x: NdArray, k: nat): (rows: seq<seq<real>>)
    requires WellShaped(x) && |x.shape| == 2 && k <= x.shape[0]
    ensures |rows| == k && forall i :: 0 <= i < k ==> rows[i] == RowOf(x, i)
  {
    if k == 0 then [] else Rows(x, k - 1) + [RowOf(x, k - 1)]
  }

  /**
   * `twod_array_to_list_array(x)`: asserts x is 2-D, then one entry per row,
   * each as long as a row.
   */
  function TwodArrayToListArray(x: NdArray): (r: Result<seq<seq<real>>, PyError>)
    requires WellShaped(x)
    ensures r.Err? <==> |x.shape| != 2
    ensures r.Err? ==> r.error == AssertionError
    ensures r.Ok? ==> |r.value| == x.shape[0] && forall i :: 0 <= i < |r.value| ==> |r.value[i]| == x.shape[1]
  {
    if |x.shape| != 2 then Err(AssertionError) else Ok(Rows(x, x.shape[0]))
  }

  lemma {:induction false} RowsFlatten(x: NdArray, k: nat)
    requires WellShaped(x) && |x.shape| == 2 && k <= x.shape[0]
    ensures k * x.shape[1] <= |x.data|
    ensures Flatten(Rows(x, k)) == x.data[..k * x.shape[1]]
  {
    var cols := x.shape[1];
    ProductOfTwo(x.shape);
    if k > 0 {
      RowsFlatten(x, k - 1);
      RowWithin(k - 1, x.shape[0], cols);
      FlattenAppend(Rows(x, k - 1), RowOf(x, k - 1));
      assert (k - 1) * cols + cols == k * cols;
      assert x.data[..(k - 1) * cols] + x.data[(k - 1) * cols..k * cols] == x.data[..k * cols];
    } else {
      assert x.data[..0] == [];
    }
  }

  /** The rows, concatenated, are the array's elements: nothing is lost, duplicated or reordered. */
  lemma TwodRowsConcatenate(x: NdArray)
    requires WellShaped(x) && |x.shape| == 2
    ensures Flatten(TwodArrayToListArray(x).value) == x.data
  {
    RowsFlatten(x, x.shape[0]);
    ProductOfTwo(x.shape);
    assert x.data[..x.shape[0] * x.shape[1]] == x.data;
  }

  /** Entry j of row i is the array's element at (i, j) in row-major order. */
  lemma TwodEntry(x: NdArray, i: nat, j: nat)
    requires WellShaped(x) && |x.shape| == 2 && i < x.shape[0] && j < x.shape[1]
    ensures i * x.shape[1] + j < |x.data|
    ensures TwodArrayToListArray(x).value[i][j] == x.data[i * x.shape[1] + j]
  {
    ProductOfTwo(x.shape);
    RowWithin(i, x.shape[0], x.shape[1]);
    assert TwodArrayToListArray(x).value[i] == RowOf(x, i);
  }

  /** A pandas Series of texts, with its name. */
  datatype Series = Series(name: string, values: seq<string>)

  /** The frame `join` builds: its column names, the text column and the embedding column. */
  datatype DataFrame = DataFrame(columns: seq<string>, text: seq<string>, embedding: seq<seq<real>>)

  /**
   * `join(text, embeddings)`: the text beside one embedding row per entry,
   * in columns named `name` and `name + "_embedding"`, two distinct names.
   */
  function Join(text: Series, embeddings: NdArray): (r: Result<DataFrame, PyError>)
    requires WellShaped(embeddings)
    ensures r.Err? <==> |embeddings.shape| != 2
    ensures r.Ok? ==> r.value.columns == [text.name, text.name + "_embedding"]
    ensures r.Ok? ==> r.value.columns[0] != r.value.columns[1]
    ensures r.Ok? ==> r.value.text == text.values && |r.value.embedding| == embeddings.shape[0]
    ensures r.Ok? ==> Flatten(r.value.embedding) == embeddings.data
  {
    match TwodArrayToListArray(embeddings)
    case Err(e) => Err(e)
    case Ok(rows) =>
      TwodRowsConcatenate(embeddings);
      assert |text.name + "_embedding"| != |text.name|;
      Ok(DataFrame([text.name, text.name + "_embedding"], text.values, rows))
  }

  // ---------------------------------------------------------------------
  // init_model

  /** A `pathlib.Path`, as its parts (the anchor excluded). */
  datatype ModelPath = ModelPath(parts: seq<string>)

  /** `Path.name`: the last part, or "" for an empty path. */
  function PathName(p: ModelPath): string {
    if p.parts == [] then "" else p.parts[|p.parts| - 1]
  }

  /** The only model `init_model` supports. */
  const SupportedModel := "jina-embeddings-v3"

  /** The loaded model and tokenizer, wrapped. */
  datatype JinaEmbeddings3Model<M, K> = JinaEmbeddings3Model(model: M, tokenizer: K)

  /** `init_model(model_path)`: wraps the loaded model when the directory is named "jina-embeddings-v3", raises otherwise. */
  function InitModel<M, K>(modelPath: ModelPath, model: M, tokenizer: K): (r: Result<JinaEmbeddings3Model<M, K>, PyError>)
    ensures r.Ok? <==> PathName(modelPath) == SupportedModel
    ensures r.Ok? ==> r.value.model == model && r.value.tokenizer == tokenizer
    ensures r.Err? ==> r.error == ValueError("Model " + PathName(modelPath) + " not supported")
  {
    var modelName := PathName(modelPath);
    if modelName == SupportedModel then Ok(JinaEmbeddings3Model(model, tokenizer))
    else Err(ValueError("Model " + modelName + " not supported"))
  }

  /** The command line's default, ./models/jina-embeddings-v3, is supported; its v2 sibling is not. */
  lemma DefaultModelPathSupported<M, K>(model: M, tokenizer: K)
    ensures InitModel(ModelPath(["models", "jina-embeddings-v3"]), model, tokenizer).Ok?
    ensures InitModel(ModelPath(["models", "jina-embeddings-v2-base-en"]), model, tokenizer).Err?
  {
  }
}
