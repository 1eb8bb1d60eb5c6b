/** The vector-index branch of the pipeline (save_embeddings.py): each
    cleaned row is projected to a short text, an id and a metadata record;
    the texts are embedded; the index is created or looked up; and the
    (id, vector, metadata) triples are upserted in fixed-size batches.

    The embedding model, the rendering of floats, the JSON serialisation of
    a row and the vector-index client are outside the model: the first three
    are function parameters, the client is the record of its answers
    (`IndexService`) and the calls made on it are returned, in order, as a
    list of `Call`s. */
module Embeddings {
  import opened Wrappers
  import opened Text
  import Titanic

  type Vector = seq<real>

  /** The metadata dictionary of one vector: `passenger_id` and `raw`. */
  datatype Metadata = Metadata(passengerId: int, raw: string)

  /** One `(id, vector, metadata)` triple of an upsert. */
  datatype Record = Record(id: string, values: Vector, metadata: Metadata)

  /** A call on the vector-index client. */
  datatype Call =
    | ListIndexes
    | CreateIndex(name: string, dimension: nat, metric: string, cloud: string, region: string)
    | DescribeIndex(name: string)
    | OpenIndex(host: string)
    | Upsert(vectors: seq<Record>, namespace: Option<string>)

  /** What the client answers: the names `list_indexes()` reports, and the
      host returned by `create_index` and by `describe_index`. */
  datatype IndexService = IndexService(existingNames: seq<string>, createdHost: string, describedHost: string)

  /** `INDEX_NAME`, `NAMESPACE` and `BATCH_SIZE`. */
  datatype Config = Config(indexName: string, namespace: Option<string>, batchSize: nat)

  datatype UpsertError =
    | EmbeddingCountMismatch   // the explicit `RuntimeError`
    | NoEmbeddingForDimension  // `all_embeddings[0]` on an empty result

  const DefaultIndexName: string := "titanic-index"
  const DefaultBatchSize: nat := 100
  const Metric: string := "cosine"
  const Cloud: string := "aws"
  const Region: string := "us-east-1"

  /** The configuration when the environment sets no index name: the
      default index and `BATCH_SIZE`, in the given namespace. It meets the
      upload's requirement of a positive batch size. */
  function DefaultConfig(namespace: Option<string>): (cfg: Config)
    ensures cfg.indexName == DefaultIndexName && cfg.namespace == namespace
    ensures cfg.batchSize > 0
  {
    Config(DefaultIndexName, namespace, DefaultBatchSize)
  }

  function Min(a: int, b: int): int { if a <= b then a else b }

  // ---------------------------------------------------------------------
  // row_to_text
  // ---------------------------------------------------------------------

  const Labels: seq<string> := ["Pclass", "Sex", "Age", "Fare", "Embarked"]
  const Separator: string := "; "

  /** The f-string rendering of the five columns, in `Labels` order. The
      cleaned table always has these columns, so `row.get`'s default never
      applies; a missing age is NaN and renders as "nan". */
  function FieldValues(row: Titanic.CleanPassenger, showReal: real -> string): seq<string>
  {
    [ IntToString(row.pclass),
      row.sex,
      if row.age.Some? then showReal(row.age.value) else "nan",
      showReal(row.fare),
      row.embarked ]
  }

  function Segments(row: Titanic.CleanPassenger, showReal: real -> string): seq<string>
  {
    var values := FieldValues(row, showReal);
    seq(5, k requires 0 <= k < 5 => Labels[k] + ": " + values[k])
  }

  /** `row_to_text(row)`. Every part is a string, so the `p is not None`
      filter keeps all five. */
  function RowToText(row: Titanic.CleanPassenger, showReal: real -> string): string
  {
    Join(Segments(row, showReal), Separator)
  }

  lemma NoSemicolonInInt(n: int)
    ensures ';' !in IntToString(n)
  {
    var s := IntToString(n);
    if n < 0 {
      assert s == "-" + NatToString(-n);
      assert forall i :: 1 <= i < |s| ==> IsDigit(s[i]);
    }
  }

  /** The text is exactly five "Label: value" segments, in the order Pclass,
      Sex, Age, Fare, Embarked: splitting at "; " gives them back, provided
      no rendered value itself contains a ';'. */
  lemma RowToTextHasFiveSegments(row: Titanic.CleanPassenger, showReal: real -> string)
    requires ';' !in row.sex && ';' !in row.embarked
    requires forall x :: ';' !in showReal(x)
    ensures var parts := Split(RowToText(row, showReal), Separator);
      |parts| == 5
      && forall k :: 0 <= k < 5 ==> parts[k] == Labels[k] + ": " + FieldValues(row, showReal)[k]
  {
    var values := FieldValues(row, showReal);
    var parts := Segments(row, showReal);
    NoSemicolonInInt(row.pclass);
    if row.age.Some? {
      var a := row.age.value;
      assert ';' !in showReal(a);
      assert values[2] == showReal(a);
    } else {
      assert values[2] == ['n', 'a', 'n'];
    }
    assert ';' !in values[3] by {
      assert ';' !in showReal(row.fare);
    }
    assert forall k :: 0 <= k < 5 ==> ';' !in values[k];
    assert forall k :: 0 <= k < 5 ==> ';' !in Labels[k] + ": ";
    forall k | 0 <= k < 5 ensures ';' !in parts[k] {
      assert parts[k] == (Labels[k] + ": ") + values[k];
    }
    SplitJoin(parts, Separator);
  }

  // ---------------------------------------------------------------------
  // chunks
  // ---------------------------------------------------------------------

  function Flatten<T>(xss: seq<seq<T>>): seq<T>
  {
    if xss == [] then [] else xss[0] + Flatten(xss[1..])
  }

  /** What `chunks(lst, n)` yields from position `i` on: the slice
      `lst[i:i+n]` (cut short at the end of `lst`), then the same from
      `i + n`, as long as `i < len(lst)`. */
  function ChunksFrom<T>(lst: seq<T>, i: nat, n: nat): seq<seq<T>>
    requires n > 0
    decreases |lst| - i
  {
    if i >= |lst| then [] else [lst[i..Min(i + n, |lst|)]] + ChunksFrom(lst, i + n, n)
  }

  /** Everything `chunks(lst, n)` yields, in order. */
  function Chunks<T>(lst: seq<T>, n: nat): seq<seq<T>>
    requires n > 0
  {
    ChunksFrom(lst, 0, n)
  }

  lemma {:induction false} ChunksFromFlatten<T>(lst: seq<T>, i: nat, n: nat)
    requires n > 0 && i <= |lst|
    ensures Flatten(ChunksFrom(lst, i, n)) == lst[i..]
    decreases |lst| - i
  {
    if i < |lst| {
      var e := Min(i + n, |lst|);
      var rest := ChunksFrom(lst, i + n, n);
      assert ([lst[i..e]] + rest)[1..] == rest;
      if i + n < |lst| {
        ChunksFromFlatten(lst, i + n, n);
      } else {
        assert rest == [];
      }
      assert lst[i..e] + lst[e..] == lst[i..];
    }
  }

  /** Concatenated, the chunks give `lst` back: nothing is lost, repeated or
      reordered. */
  lemma ChunksFlatten<T>(lst: seq<T>, n: nat)
    requires n > 0
    ensures Flatten(Chunks(lst, n)) == lst
  {
    ChunksFromFlatten(lst, 0, n);
    assert lst[0..] == lst;
  }

  /** The number of chunks: `ceil(len / n)`. */
  function NumChunks(len: nat, n: nat): nat
    requires n > 0
  {
    (len + n - 1) / n
  }

  lemma {:induction false} MulStrict(x: int, y: int, n: nat)
    requires x < y
    ensures x * n + n <= y * n
    decreases y - x
  {
    assert y * n == (y - 1) * n + n;
    if x < y - 1 {
      MulStrict(x, y - 1, n);
    }
  }

  lemma DivisionIsUnique(a: int, n: int, q: int)
    requires n > 0 && q * n <= a < q * n + n
    ensures a / n == q
  {
    var q', r' := a / n, a % n;
    assert a == q' * n + r' && 0 <= r' < n;
    if q' < q {
      MulStrict(q', q, n);
    } else if q' > q {
      MulStrict(q, q', n);
    }
  }

  lemma NumChunksStep(len: nat, n: nat)
    requires 0 < n < len
    ensures NumChunks(len, n) == NumChunks(len - n, n) + 1
  {
    var a := len - n + n - 1;
    var q := a / n;
    assert a == q * n + a % n;
    assert (q + 1) * n == q * n + n;
    DivisionIsUnique(a + n, n, q + 1);
  }

  lemma NumChunksSmall(len: nat, n: nat)
    requires 0 < n && len <= n
    ensures NumChunks(len, n) == if len == 0 then 0 else 1
  {
    if len == 0 {
      DivisionIsUnique(n - 1, n, 0);
    } else {
      DivisionIsUnique(len + n - 1, n, 1);
    }
  }

  lemma {:induction false} ChunksFromCount<T>(lst: seq<T>, i: nat, n: nat)
    requires n > 0 && i <= |lst|
    ensures |ChunksFrom(lst, i, n)| == NumChunks(|lst| - i, n)
    decreases |lst| - i
  {
    if i + n < |lst| {
      ChunksFromCount(lst, i + n, n);
      NumChunksStep(|lst| - i, n);
    } else {
      NumChunksSmall(|lst| - i, n);
    }
  }

  /** There are `ceil(|lst| / n)` chunks. */
  lemma ChunkCount<T>(lst: seq<T>, n: nat)
    requires n > 0
    ensures |Chunks(lst, n)| == NumChunks(|lst|, n)
  {
    ChunksFromCount(lst, 0, n);
  }

  lemma MulSucc(j: nat, n: nat)
    ensures (j + 1) * n == j * n + n
  {
  }

  lemma {:induction false} ChunksFromAt<T>(lst: seq<T>, i: nat, n: nat, k: nat)
    requires n > 0 && k < |ChunksFrom(lst, i, n)|
    ensures i + k * n < |lst|
    ensures ChunksFrom(lst, i, n)[k] == lst[i + k * n .. Min(i + k * n + n, |lst|)]
    decreases k
  {
    if k > 0 {
      var j := k - 1;
      assert ChunksFrom(lst, i, n)[k] == ChunksFrom(lst, i + n, n)[j];
      ChunksFromAt(lst, i + n, n, j);
      MulSucc(j, n);
    }
  }

  /** Chunk `k` is the slice `lst[k*n : k*n + n]`, cut short at the end. */
  lemma ChunkAt<T>(lst: seq<T>, n: nat, k: nat)
    requires n > 0 && k < |Chunks(lst, n)|
    ensures k * n < |lst| && Chunks(lst, n)[k] == lst[k * n .. Min(k * n + n, |lst|)]
  {
    ChunksFromAt(lst, 0, n, k);
  }

  /** No chunk is empty or longer than `n`, and all but the last have
      exactly `n` elements. */
  lemma ChunkSizes<T>(lst: seq<T>, n: nat)
    requires n > 0
    ensures var cs := Chunks(lst, n);
      forall k :: 0 <= k < |cs| ==> 0 < |cs[k]| <= n && (k < |cs| - 1 ==> |cs[k]| == n)
  {
    var cs := Chunks(lst, n);
    forall k | 0 <= k < |cs|
      ensures 0 < |cs[k]| <= n && (k < |cs| - 1 ==> |cs[k]| == n)
    {
      ChunkAt(lst, n, k);
      if k < |cs| - 1 {
        ChunkAt(lst, n, k + 1);
        MulSucc(k, n);
      }
    }
  }

  /** `chunks(lst, n)`: the generator's loop, collecting what it yields. */
  method ChunkList<T>(lst: seq<T>, n: nat) returns (out: seq<seq<T>>)
    requires n > 0
    ensures out == Chunks(lst, n)
  {
    out := [];
    var i := 0;
    while i < |lst|
      invariant out + ChunksFrom(lst, i, n) == Chunks(lst, n)
    {
      var chunk := lst[i..Min(i + n, |lst|)];
      assert ChunksFrom(lst, i, n) == [chunk] + ChunksFrom(lst, i + n, n);
      out := out + [chunk];
      i := i + n;
    }
  }

  // ---------------------------------------------------------------------
  // ids, texts and metadata
  // ---------------------------------------------------------------------

  const IdPrefix: string := "passenger_"

  /** `f"passenger_{int(pid)}"` */
  function IdFor(pid: int): string
  {
    IdPrefix + IntToString(pid)
  }

  /** Reads the passenger id back out of a vector id. */
  function ParseId(id: string): Option<int>
  {
    if |id| >= |IdPrefix| && id[..|IdPrefix|] == IdPrefix then ParseInt(id[|IdPrefix|..]) else None
  }

  /** A vector id determines the passenger id it was made from. */
  lemma IdRoundTrip(pid: int)
    ensures ParseId(IdFor(pid)) == Some(pid)
  {
    var id := IdFor(pid);
    assert id[..|IdPrefix|] == IdPrefix;
    assert id[|IdPrefix|..] == IntToString(pid);
    IntToStringRoundTrip(pid);
  }

  /** So distinct passengers get distinct vector ids, and an upsert by id
      never overwrites another passenger's vector. */
  lemma IdsAreDistinct(a: int, b: int)
    requires a != b
    ensures IdFor(a) != IdFor(b)
  {
    IdRoundTrip(a);
    IdRoundTrip(b);
  }

  function TextsOf(df: seq<Titanic.CleanPassenger>, showReal: real -> string): (texts: seq<string>)
    ensures |texts| == |df|
  {
    seq(|df|, k requires 0 <= k < |df| => RowToText(df[k], showReal))
  }

  lemma TextsOfExtend(df: seq<Titanic.CleanPassenger>, k: nat, showReal: real -> string)
    requires k < |df|
    ensures TextsOf(df[..k + 1], showReal) == TextsOf(df[..k], showReal) + [RowToText(df[k], showReal)]
  {
    var a, b := TextsOf(df[..k + 1], showReal), TextsOf(df[..k], showReal) + [RowToText(df[k], showReal)];
    forall j | 0 <= j < |a| ensures a[j] == b[j] {
      assert df[..k + 1][j] == df[j];
    }
  }

  /** The loop over `df.iterrows()`: one id, one text and one metadata
      record per row, in row order. `rawOf` stands for the JSON dump of the
      row. */
  method ProjectRows(df: seq<Titanic.CleanPassenger>, showReal: real -> string,
                     rawOf: Titanic.CleanPassenger -> string)
    returns (ids: seq<string>, texts: seq<string>, metas: seq<Metadata>)
    ensures |ids| == |texts| == |metas| == |df|
    ensures texts == TextsOf(df, showReal)
    ensures forall k :: 0 <= k < |df| ==>
      ids[k] == IdFor(metas[k].passengerId) && metas[k] == Metadata(df[k].passengerId, rawOf(df[k]))
  {
    ids, texts, metas := [], [], [];
    for k := 0 to |df|
      invariant |ids| == |texts| == |metas| == k
      invariant texts == TextsOf(df[..k], showReal)
      invariant forall j :: 0 <= j < k ==>
        ids[j] == IdFor(metas[j].passengerId) && metas[j] == Metadata(df[j].passengerId, rawOf(df[j]))
    {
      var row := df[k];
      var pid := row.passengerId;
      ids := ids + [IdFor(pid)];
      TextsOfExtend(df, k, showReal);
      texts := texts + [RowToText(row, showReal)];
      metas := metas + [Metadata(pid, rawOf(row))];
    }
    assert df[..|df|] == df;
  }

  // ---------------------------------------------------------------------
  // Batched upsert
  // ---------------------------------------------------------------------

  /** The aligned triples: the k-th id, the k-th vector and the k-th
      metadata record. */
  function Zip(ids: seq<string>, embs: seq<Vector>, metas: seq<Metadata>): (records: seq<Record>)
    requires |embs| == |ids| && |metas| == |ids|
    ensures |records| == |ids|
  {
    seq(|ids|, j requires 0 <= j < |ids| => Record(ids[j], embs[j], metas[j]))
  }

  lemma BatchSlice(ids: seq<string>, embs: seq<Vector>, metas: seq<Metadata>, i: nat, e: nat)
    requires |embs| == |ids| && |metas| == |ids| && i <= e <= |ids|
    ensures Zip(ids[i..e], embs[i..e], metas[i..e]) == Zip(ids, embs, metas)[i..e]
  {
  }

  /** One `upsert` call per batch, in batch order. */
  function UpsertCalls(batches: seq<seq<Record>>, namespace: Option<string>): (calls: seq<Call>)
    ensures |calls| == |batches|
  {
    seq(|batches|, k requires 0 <= k < |batches| => Upsert(batches[k], namespace))
  }

  /** `progress` holds the running totals of the batch sizes. */
  predicate RunningTotals(progress: seq<nat>, batches: seq<seq<Record>>)
  {
    |progress| == |batches|
    && (|progress| > 0 ==> progress[0] == |batches[0]|)
    && (forall k :: 0 < k < |progress| ==> progress[k] == progress[k - 1] + |batches[k]|)
  }

  lemma RunningTotalsExtend(progress: seq<nat>, batches: seq<seq<Record>>, b: seq<Record>, sent: nat)
    requires RunningTotals(progress, batches)
    requires if progress == [] then sent == 0 else progress[|progress| - 1] == sent
    ensures RunningTotals(progress + [sent + |b|], batches + [b])
  {
  }

  lemma {:induction false} TotalsIncrease(progress: seq<nat>, batches: seq<seq<Record>>, k: nat, l: nat)
    requires RunningTotals(progress, batches)
    requires forall j :: 0 <= j < |batches| ==> |batches[j]| > 0
    requires k < l < |progress|
    ensures progress[k] < progress[l]
    decreases l - k
  {
    if k < l - 1 {
      TotalsIncrease(progress, batches, k, l - 1);
    }
  }

  lemma {:induction false} FlattenAppend<T>(a: seq<seq<T>>, b: seq<T>)
    ensures Flatten(a + [b]) == Flatten(a) + b
  {
    if a != [] {
      assert (a + [b])[1..] == a[1..] + [b];
      FlattenAppend(a[1..], b);
    } else {
      assert [b][1..] == [];
    }
  }

  /** Each running total is the number of records in the batches sent so far. */
  lemma {:induction false} TotalsCountSent(progress: seq<nat>, batches: seq<seq<Record>>, k: nat)
    requires RunningTotals(progress, batches) && k < |progress|
    ensures progress[k] == |Flatten(batches[..k + 1])|
    decreases k
  {
    if k == 0 {
      assert batches[..1] == [] + [batches[0]];
      FlattenAppend([], batches[0]);
    } else {
      TotalsCountSent(progress, batches, k - 1);
      assert batches[..k + 1] == batches[..k] + [batches[k]];
      FlattenAppend(batches[..k], batches[k]);
    }
  }

  /** What the progress messages promise: one per batch, each reporting
      more records than the one before, the last reporting all of them. */
  lemma ProgressReachesTotal(progress: seq<nat>, records: seq<Record>, n: nat)
    requires n > 0 && RunningTotals(progress, Chunks(records, n))
    ensures |progress| == NumChunks(|records|, n)
    ensures forall k, l :: 0 <= k < l < |progress| ==> progress[k] < progress[l]
    ensures |progress| > 0 ==> progress[|progress| - 1] == |records|
  {
    var batches := Chunks(records, n);
    ChunkCount(records, n);
    ChunkSizes(records, n);
    forall k, l | 0 <= k < l < |progress|
      ensures progress[k] < progress[l]
    {
      TotalsIncrease(progress, batches, k, l);
    }
    if |progress| > 0 {
      TotalsCountSent(progress, batches, |progress| - 1);
      assert batches[..|progress|] == batches;
      ChunksFlatten(records, n);
    }
  }

  /** The state of the batch loop before the batch starting at `i`: the
      batches sent so far followed by those still to come are all the
      batches; one call and one reported total per batch sent. */
  ghost predicate BatchLoopState(records: seq<Record>, n: nat, namespace: Option<string>, i: nat,
                                 sent: seq<seq<Record>>, calls: seq<Call>, progress: seq<nat>)
    requires n > 0
  {
    sent + ChunksFrom(records, i, n) == Chunks(records, n)
    && calls == UpsertCalls(sent, namespace)
    && RunningTotals(progress, sent)
    && (|progress| == 0 <==> i == 0)
    && (|progress| > 0 ==> progress[|progress| - 1] == Min(i, |records|))
  }

  /** One pass of the batch loop keeps its state. */
  lemma BatchStep(records: seq<Record>, n: nat, namespace: Option<string>, i: nat,
                  sent: seq<seq<Record>>, calls: seq<Call>, progress: seq<nat>)
    requires n > 0 && i < |records|
    requires BatchLoopState(records, n, namespace, i, sent, calls, progress)
    ensures var b := records[i..Min(i + n, |records|)];
      BatchLoopState(records, n, namespace, i + n, sent + [b], calls + [Upsert(b, namespace)],
                     progress + [Min(i + n, |records|)])
  {
    var b := records[i..Min(i + n, |records|)];
    assert ChunksFrom(records, i, n) == [b] + ChunksFrom(records, i + n, n);
    assert sent + ChunksFrom(records, i, n) == (sent + [b]) + ChunksFrom(records, i + n, n);
    RunningTotalsExtend(progress, sent, b, i);
    assert calls + [Upsert(b, namespace)] == UpsertCalls(sent + [b], namespace);
  }

  /** The batch loop: the `Upsert` calls it makes, one per batch, and the
      `i_end` it reports after each. */
  method UpsertBatches(ids: seq<string>, embs: seq<Vector>, metas: seq<Metadata>,
                       batchSize: nat, namespace: Option<string>)
    returns (calls: seq<Call>, progress: seq<nat>)
    requires batchSize > 0
    requires |embs| == |ids| && |metas| == |ids|
    ensures calls == UpsertCalls(Chunks(Zip(ids, embs, metas), batchSize), namespace)
    ensures RunningTotals(progress, Chunks(Zip(ids, embs, metas), batchSize))
  {
    ghost var records := Zip(ids, embs, metas);
    ghost var sent: seq<seq<Record>> := [];
    var total := |ids|;
    calls, progress := [], [];
    var i := 0;
    while i < total
      invariant BatchLoopState(records, batchSize, namespace, i, sent, calls, progress)
    {
      var iEnd := Min(i + batchSize, total);
      var batchIds := ids[i..iEnd];
      var batchEmbs := embs[i..iEnd];
      var batchMeta := metas[i..iEnd];
      var vectors := Zip(batchIds, batchEmbs, batchMeta);
      BatchSlice(ids, embs, metas, i, iEnd);
      BatchStep(records, batchSize, namespace, i, sent, calls, progress);
      calls := calls + [Upsert(vectors, namespace)];
      sent := sent + [vectors];
      progress := progress + [iEnd];
      i := i + batchSize;
    }
    assert ChunksFrom(records, i, batchSize) == [];
  }

  /** Where element `j` of batch `k` sits in the whole sequence. */
  function Position(k: nat, j: nat, n: nat): nat
  {
    k * n + j
  }

  /** The batches cover the records exactly once, in order: their
      concatenation is the whole aligned sequence. */
  lemma BatchesCoverRecords(ids: seq<string>, embs: seq<Vector>, metas: seq<Metadata>, batchSize: nat)
    requires batchSize > 0
    requires |embs| == |ids| && |metas| == |ids|
    ensures var batches := Chunks(Zip(ids, embs, metas), batchSize);
      Flatten(batches) == Zip(ids, embs, metas)
      && |batches| == NumChunks(|ids|, batchSize)
      && (|ids| == 0 ==> batches == [])
      && forall k, j :: 0 <= k < |batches| && 0 <= j < |batches[k]| ==>
           var i := Position(k, j, batchSize);
           i < |ids| && batches[k][j] == Record(ids[i], embs[i], metas[i])
  {
    var records := Zip(ids, embs, metas);
    var batches := Chunks(records, batchSize);
    ChunksFlatten(records, batchSize);
    ChunkCount(records, batchSize);
    forall k, j | 0 <= k < |batches| && 0 <= j < |batches[k]|
      ensures var i := Position(k, j, batchSize);
        i < |ids| && batches[k][j] == Record(ids[i], embs[i], metas[i])
    {
      BatchElement(ids, embs, metas, batchSize, k, j);
    }
    NumChunksSmall(0, batchSize);
  }

  lemma BatchElement(ids: seq<string>, embs: seq<Vector>, metas: seq<Metadata>, n: nat, k: nat, j: nat)
    requires n > 0 && |embs| == |ids| && |metas| == |ids|
    requires k < |Chunks(Zip(ids, embs, metas), n)| && j < |Chunks(Zip(ids, embs, metas), n)[k]|
    ensures k * n + j < |ids|
    ensures Chunks(Zip(ids, embs, metas), n)[k][j] == Record(ids[k * n + j], embs[k * n + j], metas[k * n + j])
  {
    var records := Zip(ids, embs, metas);
    ChunkAt(records, n, k);
    var start := k * n;
    assert Chunks(records, n)[k][j] == records[start + j];
  }

  // ---------------------------------------------------------------------
  // embed_and_upsert_openai_pinecone
  // ---------------------------------------------------------------------

  /** The records upserted for `df`, given the vectors the model returned. */
  function RecordsOf(df: seq<Titanic.CleanPassenger>, embs: seq<Vector>,
                     rawOf: Titanic.CleanPassenger -> string): (records: seq<Record>)
    requires |embs| == |df|
    ensures |records| == |df|
  {
    seq(|df|, k requires 0 <= k < |df| =>
      Record(IdFor(df[k].passengerId), embs[k], Metadata(df[k].passengerId, rawOf(df[k]))))
  }

  /** The one call that makes sure the index exists: `create_index` with the
      length of the first vector as dimension when the name is not listed,
      `describe_index` when it is. */
  function IndexCall(cfg: Config, service: IndexService, embs: seq<Vector>): Call
    requires cfg.indexName in service.existingNames || embs != []
  {
    if cfg.indexName !in service.existingNames then
      CreateIndex(cfg.indexName, |embs[0]|, Metric, Cloud, Region)
    else
      DescribeIndex(cfg.indexName)
  }

  /** The host the index client is opened on: from the create answer or the
      describe answer, whichever call was made. */
  function IndexHost(cfg: Config, service: IndexService): string
  {
    if cfg.indexName !in service.existingNames then service.createdHost else service.describedHost
  }

  /** The calls of a run that gets past both checks, in order. */
  function RunCalls(cfg: Config, service: IndexService, embs: seq<Vector>, records: seq<Record>): seq<Call>
    requires cfg.batchSize > 0
    requires cfg.indexName in service.existingNames || embs != []
  {
    [ListIndexes, IndexCall(cfg, service, embs), OpenIndex(IndexHost(cfg, service))]
      + UpsertCalls(Chunks(records, cfg.batchSize), cfg.namespace)
  }

  /** The index is created exactly when its name is not listed and described
      exactly when it is; it is never both created and described. */
  lemma IndexCreatedIffMissing(cfg: Config, service: IndexService, embs: seq<Vector>, records: seq<Record>)
    requires cfg.batchSize > 0
    requires cfg.indexName in service.existingNames || embs != []
    ensures var calls := RunCalls(cfg, service, embs, records);
      ((exists k :: 0 <= k < |calls| && calls[k].CreateIndex?) <==> cfg.indexName !in service.existingNames)
      && ((exists k :: 0 <= k < |calls| && calls[k].DescribeIndex?) <==> cfg.indexName in service.existingNames)
  {
    var calls := RunCalls(cfg, service, embs, records);
    assert forall k :: 3 <= k < |calls| ==> calls[k].Upsert?;
    assert calls[1] == IndexCall(cfg, service, embs);
  }

  /** The index is set up, once, before anything is upserted; a created index
      has the name, the metric and the region configured and the dimension of
      the first vector. */
  lemma IndexSetUpBeforeUpserts(cfg: Config, service: IndexService, embs: seq<Vector>, records: seq<Record>)
    requires cfg.batchSize > 0
    requires cfg.indexName in service.existingNames || embs != []
    ensures var calls := RunCalls(cfg, service, embs, records);
      (forall a, b :: 0 <= a < |calls| && 0 <= b < |calls| && !calls[a].Upsert? && calls[b].Upsert? ==> a < b)
      && (forall k :: 0 <= k < |calls| && calls[k].CreateIndex? ==>
            k == 1 && calls[k] == CreateIndex(cfg.indexName, |embs[0]|, Metric, Cloud, Region))
      && (forall k :: 0 <= k < |calls| && calls[k].OpenIndex? ==> k == 2 && calls[k].host == IndexHost(cfg, service))
  {
    var calls := RunCalls(cfg, service, embs, records);
    assert forall k :: 3 <= k < |calls| ==> calls[k].Upsert?;
  }

  /** After the setup calls come the upserts: one per batch of at most
      `batchSize` aligned records, all in the configured namespace, together
      carrying every record once, in order. */
  lemma UpsertsCarryEveryRecord(cfg: Config, service: IndexService, embs: seq<Vector>, records: seq<Record>)
    requires cfg.batchSize > 0
    requires cfg.indexName in service.existingNames || embs != []
    ensures var calls := RunCalls(cfg, service, embs, records);
      |calls| == 3 + NumChunks(|records|, cfg.batchSize)
      && (forall k :: 3 <= k < |calls| ==>
            calls[k].Upsert? && calls[k].namespace == cfg.namespace && 0 < |calls[k].vectors| <= cfg.batchSize)
      && Flatten(seq(|calls| - 3, k requires 0 <= k < |calls| - 3 => calls[k + 3].vectors)) == records
  {
    var calls := RunCalls(cfg, service, embs, records);
    var batches := Chunks(records, cfg.batchSize);
    ChunkCount(records, cfg.batchSize);
    ChunkSizes(records, cfg.batchSize);
    ChunksFlatten(records, cfg.batchSize);
    assert seq(|calls| - 3, k requires 0 <= k < |calls| - 3 => calls[k + 3].vectors) == batches;
  }

  /** The whole upload: project, embed, check the count, ensure the index,
      upsert in batches. `calls` is what the client saw, in order;
      `progress` is the sequence of reported `i_end` values. A count
      mismatch is raised before the client is used at all; the only other
      failure is a missing index with no vector to take a dimension from. */
  method EmbedAndUpsert(df: seq<Titanic.CleanPassenger>, cfg: Config, service: IndexService,
                        embed: seq<string> -> seq<Vector>, showReal: real -> string,
                        rawOf: Titanic.CleanPassenger -> string)
    returns (res: Result<(), UpsertError>, calls: seq<Call>, progress: seq<nat>)
    requires cfg.batchSize > 0
    ensures var embs := embed(TextsOf(df, showReal));
      if |embs| != |df| then
        res == Failure(EmbeddingCountMismatch) && calls == [] && progress == []
      else if cfg.indexName !in service.existingNames && embs == [] then
        res == Failure(NoEmbeddingForDimension) && calls == [ListIndexes] && progress == []
      else
        var records := RecordsOf(df, embs, rawOf);
        res == Success(()) && calls == RunCalls(cfg, service, embs, records)
        && RunningTotals(progress, Chunks(records, cfg.batchSize))
  {
    var ids, texts, metas := ProjectRows(df, showReal, rawOf);
    var embs := embed(texts);
    if |embs| != |ids| {
      return Failure(EmbeddingCountMismatch), [], [];
    }
    calls := [ListIndexes];
    var host;
    if cfg.indexName !in service.existingNames {
      if |embs| == 0 {
        return Failure(NoEmbeddingForDimension), calls, [];
      }
      var dim := |embs[0]|;
      calls := calls + [CreateIndex(cfg.indexName, dim, Metric, Cloud, Region)];
      host := service.createdHost;
    } else {
      calls := calls + [DescribeIndex(cfg.indexName)];
      host := service.describedHost;
    }
    calls := calls + [OpenIndex(host)];
    assert Zip(ids, embs, metas) == RecordsOf(df, embs, rawOf);
    var upserts;
    upserts, progress := UpsertBatches(ids, embs, metas, cfg.batchSize, cfg.namespace);
    calls := calls + upserts;
    res := Success(());
  }
}
