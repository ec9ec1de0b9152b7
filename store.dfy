/** The `documents` table of `RAGDatabase` and the operations on it: `embed_document`,
    `search_similar`, `delete_document`, `get_stats` and `get_document_info`.

    The table is a sequence of rows in rowid order, which is the order a table scan returns
    them, together with the next AUTOINCREMENT id. Each operation is specified by a function of
    the table before it (`Ingest`, `Search`, `Delete`, `FileCounts`, `Lookup`); the class
    methods are proved to do what those functions say, and the lemmas state what the source
    promises about them. */
module Store {
  import opened Wrappers
  import opened Slices
  import opened Blob
  import opened Ranking
  import Json
  import Chunker
  import Paths
  import Text

  /** The model name `get_stats` reports. */
  const EmbeddingModel: string := "all-MiniLM-L6-v2"
  /** `str(e)` for the ValueError raised when a file yields no chunks. */
  const NoContent: string := "No content could be extracted from the file"
  /** The error `delete_document` reports for a file with no rows. */
  const NotFound: string := "Document not found"
  /** `str(e)` for the NameError raised by a call on the undefined name `logger`. */
  const LoggerMissing: string := "name 'logger' is not defined"
  /** The gist of the ValidationError `DocumentChunk` raises when `metadata` is neither a dict
      nor None. */
  const NotADict: string := "metadata: Input should be a valid dictionary"

  /** What the embedding model returns for a text: float32 bit patterns. */
  type Vector = seq<F32Bits>

  /** One row of `documents`. `metadata` is the nullable TEXT column; `createdAt` is the
      CURRENT_TIMESTAMP of the insert, kept as the text SQLite returns. */
  datatype Row = Row(
    id: int, filename: string, content: string, chunkId: int,
    embedding: seq<Byte>, metadata: Option<string>, createdAt: string)

  /** The table: its rows in rowid order and the id the next insert gets. */
  datatype Table = Table(rows: seq<Row>, nextId: int)

  /** A row as the callers see it: `DocumentChunk`, or the dict `search_similar` builds in
      db.py. `similarity` is set by a search and absent from a lookup. */
  datatype Chunk = Chunk(
    id: int, filename: string, content: string, chunkId: int,
    metadata: Json.Value, createdAt: string, similarity: Option<real>)

  /** `EmbedDocumentResponse`, and db.py's result dict, without the message text. */
  datatype EmbedResponse =
    | Embedded(filename: string, chunksAdded: nat, totalCharacters: nat)
    | EmbedFailed(error: string)

  /** `DeleteDocumentResponse`, and db.py's result dict, without the message text. */
  datatype DeleteResponse =
    | Deleted(filename: string, chunksDeleted: nat)
    | DeleteFailed(error: string)

  /** One group of `SELECT filename, COUNT(*) ... GROUP BY filename`. */
  datatype FileCount = FileCount(filename: string, chunks: nat)

  /** The dict db.py's `get_stats` returns. */
  datatype Stats = Stats(
    totalChunks: nat, uniqueFiles: nat, files: seq<FileCount>,
    embeddingModel: string, databasePath: string)

  /** `DocumentInfo`, the summary the packaged `get_stats` returns. */
  datatype DocumentInfo = DocumentInfo(
    filename: string, chunks: nat, chunkDetails: Option<seq<Chunk>>,
    embeddingModel: string, databasePath: string)

  // ---------------------------------------------------------------- metadata

  /** `metadata or {}`: no metadata and an empty dict both store `{}`. */
  function OrEmpty(metadata: Option<seq<Json.Member>>): seq<Json.Member> {
    if metadata.Some? then metadata.value else []
  }

  /** `json.dumps(metadata or {})`, the text stored in the `metadata` column. */
  function StoredMetadata(metadata: Option<seq<Json.Member>>): (s: string)
    ensures s != [] && s[0] == '{'
  {
    Json.Dumps(Json.Obj(OrEmpty(metadata)))
  }

  /** `json.loads(metadata) if metadata else {}`: NULL and the empty text read as `{}`. */
  function LoadedMetadata(metadata: Option<string>): Result<Json.Value> {
    if metadata.None? || metadata.value == "" then Ok(Json.Obj([]))
    else Json.Loads(metadata.value)
  }

  /** What is stored is read back: the metadata of a row written by `embed_document` decodes to
      the dict that was passed in, and to `{}` when none was, never to null. */
  lemma MetadataRoundTrip(metadata: Option<seq<Json.Member>>)
    requires metadata.Some? ==> Json.MembersWellFormed(metadata.value)
    ensures LoadedMetadata(Some(StoredMetadata(metadata))) == Ok(Json.Obj(OrEmpty(metadata)))
  {
    Json.LoadsDumps(Json.Obj(OrEmpty(metadata)));
  }

  // ---------------------------------------------------------------- row ids

  /** Ids increase along the table: AUTOINCREMENT hands them out in insertion order. */
  predicate IdsIncreasing(rows: seq<Row>) {
    forall i, j :: 0 <= i < j < |rows| ==> rows[i].id < rows[j].id
  }

  predicate IdsWithin(rows: seq<Row>, lo: int, hi: int) {
    forall i :: 0 <= i < |rows| ==> lo <= rows[i].id < hi
  }

  /** The shape of every table this code creates and updates: ids from 1 on, increasing, and
      all below the next id. */
  predicate WellNumbered(t: Table) {
    1 <= t.nextId && IdsIncreasing(t.rows) && IdsWithin(t.rows, 1, t.nextId)
  }

  lemma IdsOfAppend(a: seq<Row>, b: seq<Row>, lo: int, mid: int, hi: int)
    requires IdsIncreasing(a) && IdsWithin(a, lo, mid)
    requires IdsIncreasing(b) && IdsWithin(b, mid, hi)
    requires lo <= mid <= hi
    ensures IdsIncreasing(a + b) && IdsWithin(a + b, lo, hi)
  {
    var ab := a + b;
    forall i | 0 <= i < |ab| ensures lo <= ab[i].id < hi {
      if i < |a| { assert ab[i] == a[i]; } else { assert ab[i] == b[i - |a|]; }
    }
    forall i, j | 0 <= i < j < |ab| ensures ab[i].id < ab[j].id {
      if j < |a| {
        assert ab[i] == a[i] && ab[j] == a[j];
      } else if i >= |a| {
        assert ab[i] == b[i - |a|] && ab[j] == b[j - |a|];
      } else {
        assert ab[i] == a[i] && ab[j] == b[j - |a|];
      }
    }
  }

  // ---------------------------------------------------------------- embed_document

  /** The embeddings of the chunks, in order, or the error of the first chunk whose embedding
      fails. */
  function EmbedAll(chunks: seq<string>, embed: string -> Result<Vector>): (r: Result<seq<Vector>>)
    ensures r.Ok? ==> |r.value| == |chunks|
  {
    if chunks == [] then Ok([])
    else
      match embed(chunks[0])
      case Err(e) => Err(e)
      case Ok(v) =>
        match EmbedAll(chunks[1..], embed)
        case Err(e) => Err(e)
        case Ok(vs) => Ok([v] + vs)
  }

  /** When every chunk embeds, `EmbedAll` gives each chunk's embedding at its position. */
  lemma {:induction false} EmbedAllOk(chunks: seq<string>, embed: string -> Result<Vector>)
    requires forall k :: 0 <= k < |chunks| ==> embed(chunks[k]).Ok?
    ensures EmbedAll(chunks, embed).Ok?
    ensures |EmbedAll(chunks, embed).value| == |chunks|
    ensures forall k :: 0 <= k < |chunks| ==> EmbedAll(chunks, embed).value[k] == embed(chunks[k]).value
  {
    if chunks != [] {
      var tail := chunks[1..];
      assert forall k :: 0 <= k < |tail| ==> tail[k] == chunks[k + 1];
      EmbedAllOk(tail, embed);
    }
  }

  /** When the first `k` chunks embed and chunk `k` does not, `EmbedAll` fails with chunk `k`'s
      error. */
  lemma {:induction false} EmbedAllFails(chunks: seq<string>, embed: string -> Result<Vector>, k: nat)
    requires k < |chunks| && embed(chunks[k]).Err?
    requires forall j :: 0 <= j < k ==> embed(chunks[j]).Ok?
    ensures EmbedAll(chunks, embed) == Err(embed(chunks[k]).error)
  {
    if k > 0 {
      var tail := chunks[1..];
      assert embed(chunks[0]).Ok?;
      assert tail[k - 1] == chunks[k];
      assert forall j :: 0 <= j < k - 1 ==> tail[j] == chunks[j + 1];
      EmbedAllFails(tail, embed, k - 1);
    }
  }

  /** The rows inserted for the chunks of one file: one per chunk, ids from `firstId` on,
      `chunk_id` the chunk's position. */
  function NewRows(
    firstId: int, filename: string, chunks: seq<string>, vectors: seq<Vector>,
    meta: string, now: nat -> string): (rs: seq<Row>)
    requires |vectors| == |chunks|
    ensures |rs| == |chunks|
  {
    seq(|chunks|, k requires 0 <= k < |chunks| =>
      Row(firstId + k, filename, chunks[k], k, ToBytes(vectors[k]), Some(meta), now(k)))
  }

  /** The loop of `embed_document` adds one row per chunk at the end of those built so far. */
  lemma NewRowsGrow(
    firstId: int, filename: string, chunks: seq<string>, c: string,
    vectors: seq<Vector>, v: Vector, meta: string, now: nat -> string)
    requires |vectors| == |chunks|
    ensures NewRows(firstId, filename, chunks + [c], vectors + [v], meta, now) ==
            NewRows(firstId, filename, chunks, vectors, meta, now) +
            [Row(firstId + |chunks|, filename, c, |chunks|, ToBytes(v), Some(meta), now(|chunks|))]
  {
    var grown := NewRows(firstId, filename, chunks + [c], vectors + [v], meta, now);
    var rows := NewRows(firstId, filename, chunks, vectors, meta, now);
    forall k | 0 <= k < |chunks| ensures grown[k] == rows[k] {
      assert (chunks + [c])[k] == chunks[k] && (vectors + [v])[k] == vectors[k];
    }
  }

  /** The vectors the loop of `embed_document` collects one by one are those of `EmbedAll`. */
  lemma {:induction false} EmbedAllCollects(chunks: seq<string>, embed: string -> Result<Vector>, vectors: seq<Vector>)
    requires |vectors| == |chunks|
    requires forall k :: 0 <= k < |chunks| ==> embed(chunks[k]) == Ok(vectors[k])
    ensures EmbedAll(chunks, embed) == Ok(vectors)
  {
    if chunks != [] {
      EmbedAllCollects(chunks[1..], embed, vectors[1..]);
      assert vectors == [vectors[0]] + vectors[1..];
    }
  }

  /** The insert loop of `embed_document`: one embedding and one row per chunk, stopping at
      the first embedding that fails. The rows are only handed back, to be added at the
      commit after the loop. */
  method EmbedChunks(
    firstId: int, filename: string, chunks: seq<string>,
    embed: string -> Result<Vector>, meta: string, now: nat -> string) returns (r: Result<seq<Row>>)
    ensures r.Err? <==> EmbedAll(chunks, embed).Err?
    ensures r.Err? ==> r.error == EmbedAll(chunks, embed).error
    ensures r.Ok? ==> r.value == NewRows(firstId, filename, chunks, EmbedAll(chunks, embed).value, meta, now)
  {
    var pending: seq<Row> := [];
    ghost var vectors: seq<Vector> := [];
    for i := 0 to |chunks|
      invariant |vectors| == i
      invariant forall k :: 0 <= k < i ==> embed(chunks[k]) == Ok(vectors[k])
      invariant pending == NewRows(firstId, filename, chunks[..i], vectors, meta, now)
    {
      var embedding := embed(chunks[i]);
      if embedding.Err? {
        EmbedAllFails(chunks, embed, i);
        return Err(embedding.error);
      }
      assert chunks[..i + 1] == chunks[..i] + [chunks[i]];
      NewRowsGrow(firstId, filename, chunks[..i], chunks[i], vectors, embedding.value, meta, now);
      pending := pending + [Row(firstId + i, filename, chunks[i], i, ToBytes(embedding.value), Some(meta), now(i))];
      vectors := vectors + [embedding.value];
    }
    assert chunks[..|chunks|] == chunks;
    EmbedAllCollects(chunks, embed, vectors);
    return Ok(pending);
  }

  /** `embed_document(filePath, metadata)` on table `t`: the answer and the table afterwards.
      `present` and `read` are the file system (see `Paths.ExtractText`), `embed` is the
      embedding model and `now(k)` the CURRENT_TIMESTAMP that SQLite reads for the insert of
      chunk `k`: each INSERT is its own statement, after its own call to the model, so the rows
      of one call may carry different times. */
  function Ingest(
    t: Table, filePath: string, metadata: Option<seq<Json.Member>>,
    present: string -> bool, read: (string, Paths.Format) -> Result<string>,
    embed: string -> Result<Vector>, now: nat -> string): (EmbedResponse, Table)
  {
    match Paths.ExtractText(filePath, present, read)
    case Err(e) => (EmbedFailed(e), t)
    case Ok(text) => IngestText(t, Paths.Name(filePath), text, metadata, embed, now)
  }

  /** `embed_document` once the text of the file is known: chunk it with the defaults and
      refuse a text without chunks. */
  function IngestText(
    t: Table, filename: string, text: string, metadata: Option<seq<Json.Member>>,
    embed: string -> Result<Vector>, now: nat -> string): (EmbedResponse, Table)
  {
    match Chunker.Chunks(text, Chunker.DefaultChunkSize, Chunker.DefaultOverlap)
    case Err(e) => (EmbedFailed(e), t)
    case Ok(chunks) =>
      if chunks == [] then (EmbedFailed(NoContent), t)
      else InsertChunks(t, filename, chunks, |text|, StoredMetadata(metadata), embed, now)
  }

  /** The insert loop and the commit after it: the rows are added only when every chunk was
      embedded, so a failure leaves the table as it was. */
  function InsertChunks(
    t: Table, filename: string, chunks: seq<string>, size: nat, meta: string,
    embed: string -> Result<Vector>, now: nat -> string): (EmbedResponse, Table)
  {
    match EmbedAll(chunks, embed)
    case Err(e) => (EmbedFailed(e), t)
    case Ok(vectors) =>
      (Embedded(filename, |chunks|, size),
       Table(t.rows + NewRows(t.nextId, filename, chunks, vectors, meta, now), t.nextId + |chunks|))
  }

  /** Once the file is read and chunked into at least one chunk, `embed_document` is the
      insert loop. */
  lemma IngestOfChunks(
    t: Table, filePath: string, metadata: Option<seq<Json.Member>>,
    present: string -> bool, read: (string, Paths.Format) -> Result<string>,
    embed: string -> Result<Vector>, now: nat -> string, text: string, chunks: seq<string>)
    requires Paths.ExtractText(filePath, present, read) == Ok(text)
    requires Chunker.Chunks(text, Chunker.DefaultChunkSize, Chunker.DefaultOverlap) == Ok(chunks)
    requires chunks != []
    ensures Ingest(t, filePath, metadata, present, read, embed, now) ==
            InsertChunks(t, Paths.Name(filePath), chunks, |text|, StoredMetadata(metadata), embed, now)
  {
  }

  // The equations of `Ingest` on each path through `embed_document`, one lemma per path.

  lemma IngestUnreadable(
    t: Table, filePath: string, metadata: Option<seq<Json.Member>>,
    present: string -> bool, read: (string, Paths.Format) -> Result<string>,
    embed: string -> Result<Vector>, now: nat -> string)
    requires Paths.ExtractText(filePath, present, read).Err?
    ensures Ingest(t, filePath, metadata, present, read, embed, now) ==
            (EmbedFailed(Paths.ExtractText(filePath, present, read).error), t)
  {
  }

  lemma IngestNoChunks(
    t: Table, filePath: string, metadata: Option<seq<Json.Member>>,
    present: string -> bool, read: (string, Paths.Format) -> Result<string>,
    embed: string -> Result<Vector>, now: nat -> string, text: string)
    requires Paths.ExtractText(filePath, present, read) == Ok(text)
    requires Chunker.Chunks(text, Chunker.DefaultChunkSize, Chunker.DefaultOverlap) == Ok([])
    ensures Ingest(t, filePath, metadata, present, read, embed, now) == (EmbedFailed(NoContent), t)
  {
  }

  lemma InsertChunksFails(
    t: Table, filename: string, chunks: seq<string>, size: nat, meta: string,
    embed: string -> Result<Vector>, now: nat -> string, e: string)
    requires EmbedAll(chunks, embed) == Err(e)
    ensures InsertChunks(t, filename, chunks, size, meta, embed, now) == (EmbedFailed(e), t)
  {
  }

  lemma InsertChunksSucceeds(
    t: Table, filename: string, chunks: seq<string>, size: nat, meta: string,
    embed: string -> Result<Vector>, now: nat -> string, vectors: seq<Vector>)
    requires EmbedAll(chunks, embed) == Ok(vectors)
    ensures InsertChunks(t, filename, chunks, size, meta, embed, now).0 == Embedded(filename, |chunks|, size)
    ensures InsertChunks(t, filename, chunks, size, meta, embed, now).1.rows ==
            t.rows + NewRows(t.nextId, filename, chunks, vectors, meta, now)
    ensures InsertChunks(t, filename, chunks, size, meta, embed, now).1.nextId == t.nextId + |chunks|
  {
  }

  /** The insert loop and the commit after it, on table `t`. */
  method InsertSteps(
    t: Table, filename: string, chunks: seq<string>, size: nat, meta: string,
    embed: string -> Result<Vector>, now: nat -> string) returns (r: EmbedResponse, after: Table)
    ensures (r, after) == InsertChunks(t, filename, chunks, size, meta, embed, now)
  {
    var inserted := EmbedChunks(t.nextId, filename, chunks, embed, meta, now);
    if inserted.Err? {
      InsertChunksFails(t, filename, chunks, size, meta, embed, now, inserted.error);
      return EmbedFailed(inserted.error), t;
    }
    InsertChunksSucceeds(t, filename, chunks, size, meta, embed, now, EmbedAll(chunks, embed).value);
    r := Embedded(filename, |chunks|, size);
    after := Table(t.rows + inserted.value, t.nextId + |chunks|);
  }

  /** The steps of `embed_document` on table `t`: read the file, chunk the text, refuse a
      text without chunks, then run the insert loop; each failure returns the table as it
      was. */
  method IngestSteps(
    t: Table, filePath: string, metadata: Option<seq<Json.Member>>,
    present: string -> bool, read: (string, Paths.Format) -> Result<string>,
    embed: string -> Result<Vector>, now: nat -> string) returns (r: EmbedResponse, after: Table)
    ensures (r, after) == Ingest(t, filePath, metadata, present, read, embed, now)
  {
    var extracted := Paths.ExtractText(filePath, present, read);
    if extracted.Err? {
      IngestUnreadable(t, filePath, metadata, present, read, embed, now);
      return EmbedFailed(extracted.error), t;
    }
    var text := extracted.value;
    var chunked := Chunker.ChunkText(text, Chunker.DefaultChunkSize, Chunker.DefaultOverlap);
    var chunks := chunked.value;
    if chunks == [] {
      IngestNoChunks(t, filePath, metadata, present, read, embed, now, text);
      return EmbedFailed(NoContent), t;
    }
    var filename := Paths.Name(filePath);
    var meta := StoredMetadata(metadata);
    IngestOfChunks(t, filePath, metadata, present, read, embed, now, text, chunks);
    r, after := InsertSteps(t, filename, chunks, |text|, meta, embed, now);
  }

  /** A failed `embed_document` changes nothing. */
  lemma IngestAtomic(
    t: Table, filePath: string, metadata: Option<seq<Json.Member>>,
    present: string -> bool, read: (string, Paths.Format) -> Result<string>,
    embed: string -> Result<Vector>, now: nat -> string)
    ensures var (r, after) := Ingest(t, filePath, metadata, present, read, embed, now);
            r.EmbedFailed? ==> after == t
  {
    match Paths.ExtractText(filePath, present, read)
    case Err(_) =>
    case Ok(text) =>
      match Chunker.Chunks(text, Chunker.DefaultChunkSize, Chunker.DefaultOverlap)
      case Err(_) =>
      case Ok(chunks) =>
        if chunks != [] {
          IngestOfChunks(t, filePath, metadata, present, read, embed, now, text, chunks);
        }
  }

  /** The ways `embed_document` fails, each with its error: the file cannot be read, it holds
      no words, or the embedding of some chunk fails (the first such chunk's error). */
  lemma IngestFailures(
    t: Table, filePath: string, metadata: Option<seq<Json.Member>>,
    present: string -> bool, read: (string, Paths.Format) -> Result<string>,
    embed: string -> Result<Vector>, now: nat -> string, text: string, k: nat)
    ensures Paths.ExtractText(filePath, present, read).Err? ==>
              Ingest(t, filePath, metadata, present, read, embed, now).0 ==
              EmbedFailed(Paths.ExtractText(filePath, present, read).error)
    ensures Paths.ExtractText(filePath, present, read) == Ok(text) && Text.Blank(text) ==>
              Ingest(t, filePath, metadata, present, read, embed, now).0 == EmbedFailed(NoContent)
    ensures var chunks := Chunker.Chunks(text, Chunker.DefaultChunkSize, Chunker.DefaultOverlap).value;
            Paths.ExtractText(filePath, present, read) == Ok(text) &&
            k < |chunks| && embed(chunks[k]).Err? &&
            (forall j :: 0 <= j < k ==> embed(chunks[j]).Ok?) ==>
              Ingest(t, filePath, metadata, present, read, embed, now).0 ==
              EmbedFailed(embed(chunks[k]).error)
  {
    var chunked := Chunker.Chunks(text, Chunker.DefaultChunkSize, Chunker.DefaultOverlap);
    var chunks := chunked.value;
    if Paths.ExtractText(filePath, present, read) == Ok(text) {
      Chunker.ChunksEmptyOrSingle(text, Chunker.DefaultChunkSize, Chunker.DefaultOverlap, chunks);
      if k < |chunks| && embed(chunks[k]).Err? && (forall j :: 0 <= j < k ==> embed(chunks[j]).Ok?) {
        EmbedAllFails(chunks, embed, k);
      }
    }
  }

  /** The first chunk, up to `k`, whose embedding fails. */
  function FirstFailure(chunks: seq<string>, embed: string -> Result<Vector>, k: nat): (f: nat)
    requires k < |chunks| && embed(chunks[k]).Err?
    ensures f <= k && embed(chunks[f]).Err?
    ensures forall j :: 0 <= j < f ==> embed(chunks[j]).Ok?
  {
    if forall j :: 0 <= j < k ==> embed(chunks[j]).Ok? then k
    else
      var j :| 0 <= j < k && embed(chunks[j]).Err?;
      FirstFailure(chunks, embed, j)
  }

  /** The inserts succeed only when every chunk embeds. */
  lemma InsertedAllEmbedded(
    t: Table, filename: string, chunks: seq<string>, size: nat, meta: string,
    embed: string -> Result<Vector>, now: nat -> string)
    requires InsertChunks(t, filename, chunks, size, meta, embed, now).0.Embedded?
    ensures forall k :: 0 <= k < |chunks| ==> embed(chunks[k]).Ok?
  {
    forall k | 0 <= k < |chunks| ensures embed(chunks[k]).Ok? {
      if embed(chunks[k]).Err? {
        EmbedAllFails(chunks, embed, FirstFailure(chunks, embed, k));
      }
    }
  }

  /** What the inserts add: one row per chunk, after the existing rows. */
  lemma InsertedRows(
    t: Table, filename: string, chunks: seq<string>, size: nat, meta: string,
    embed: string -> Result<Vector>, now: nat -> string)
    requires InsertChunks(t, filename, chunks, size, meta, embed, now).0.Embedded?
    ensures var (r, after) := InsertChunks(t, filename, chunks, size, meta, embed, now);
            var n := |t.rows|;
            r == Embedded(filename, |chunks|, size) &&
            after.nextId == t.nextId + |chunks| &&
            |after.rows| == n + |chunks| && after.rows[..n] == t.rows &&
            forall k :: 0 <= k < |chunks| ==>
              embed(chunks[k]).Ok? &&
              after.rows[n + k] ==
                Row(t.nextId + k, filename, chunks[k], k, ToBytes(embed(chunks[k]).value), Some(meta), now(k))
  {
    InsertedAllEmbedded(t, filename, chunks, size, meta, embed, now);
    EmbedAllOk(chunks, embed);
    var vectors := EmbedAll(chunks, embed).value;
    var added := NewRows(t.nextId, filename, chunks, vectors, meta, now);
    var after := InsertChunks(t, filename, chunks, size, meta, embed, now).1;
    assert after.rows == t.rows + added;
    forall k | 0 <= k < |chunks|
      ensures after.rows[|t.rows| + k] ==
              Row(t.nextId + k, filename, chunks[k], k, ToBytes(embed(chunks[k]).value), Some(meta), now(k))
    {
      assert after.rows[|t.rows| + k] == added[k];
    }
  }

  /** A successful `embed_document` appends one row per chunk after the existing rows, and
      changes nothing else: ids continue from the counter, the file name is the last component
      of the path, `chunk_id` counts the chunks from 0, the content is the chunk, the
      embedding decodes to the chunk's vector and the metadata to the dict passed in. It
      reports the number of chunks and the length of the text. */
  lemma IngestAppends(
    t: Table, filePath: string, metadata: Option<seq<Json.Member>>,
    present: string -> bool, read: (string, Paths.Format) -> Result<string>,
    embed: string -> Result<Vector>, now: nat -> string, text: string)
    requires metadata.Some? ==> Json.MembersWellFormed(metadata.value)
    requires Paths.ExtractText(filePath, present, read) == Ok(text)
    requires Ingest(t, filePath, metadata, present, read, embed, now).0.Embedded?
    ensures var chunks := Chunker.Chunks(text, Chunker.DefaultChunkSize, Chunker.DefaultOverlap).value;
            var (r, after) := Ingest(t, filePath, metadata, present, read, embed, now);
            r == Embedded(Paths.Name(filePath), |chunks|, |text|) && |chunks| > 0 &&
            Appended(t, after, Paths.Name(filePath), chunks, metadata, embed, now)
  {
    var filename := Paths.Name(filePath);
    assert Ingest(t, filePath, metadata, present, read, embed, now) ==
           IngestText(t, filename, text, metadata, embed, now);
    TextAppends(t, filename, text, metadata, embed, now);
  }

  /** `after` is `t` with one row per chunk appended, as `embed_document` writes them. */
  ghost predicate Appended(
    t: Table, after: Table, filename: string, chunks: seq<string>,
    metadata: Option<seq<Json.Member>>, embed: string -> Result<Vector>, now: nat -> string)
  {
    var n := |t.rows|;
    after.nextId == t.nextId + |chunks| &&
    |after.rows| == n + |chunks| && after.rows[..n] == t.rows &&
    forall k :: 0 <= k < |chunks| ==>
      embed(chunks[k]).Ok? &&
      RowWritten(after.rows[n + k], t.nextId + k, filename, chunks[k], k,
                 embed(chunks[k]).value, Json.Obj(OrEmpty(metadata)), now(k))
  }

  /** The row holds these columns, its embedding reads back through `frombuffer` as `vector`
      and its metadata through `json.loads` as `loaded`. */
  ghost predicate RowWritten(
    row: Row, id: int, filename: string, chunk: string, k: int,
    vector: Vector, loaded: Json.Value, now: string)
  {
    row.id == id && row.filename == filename && row.content == chunk && row.chunkId == k &&
    row.createdAt == now &&
    FromBuffer(row.embedding) == Ok(vector) && LoadedMetadata(row.metadata) == Ok(loaded)
  }

  lemma RowReadsBack(
    id: int, filename: string, chunk: string, k: int, vector: Vector,
    metadata: Option<seq<Json.Member>>, now: string)
    requires metadata.Some? ==> Json.MembersWellFormed(metadata.value)
    ensures RowWritten(
              Row(id, filename, chunk, k, ToBytes(vector), Some(StoredMetadata(metadata)), now),
              id, filename, chunk, k, vector, Json.Obj(OrEmpty(metadata)), now)
  {
    FromBufferOfToBytes(vector);
    MetadataRoundTrip(metadata);
  }

  lemma TextAppends(
    t: Table, filename: string, text: string, metadata: Option<seq<Json.Member>>,
    embed: string -> Result<Vector>, now: nat -> string)
    requires metadata.Some? ==> Json.MembersWellFormed(metadata.value)
    requires IngestText(t, filename, text, metadata, embed, now).0.Embedded?
    ensures var chunks := Chunker.Chunks(text, Chunker.DefaultChunkSize, Chunker.DefaultOverlap).value;
            var (r, after) := IngestText(t, filename, text, metadata, embed, now);
            r == Embedded(filename, |chunks|, |text|) && |chunks| > 0 &&
            Appended(t, after, filename, chunks, metadata, embed, now)
  {
    var chunks := Chunker.Chunks(text, Chunker.DefaultChunkSize, Chunker.DefaultOverlap).value;
    var meta := StoredMetadata(metadata);
    assert IngestText(t, filename, text, metadata, embed, now) ==
           InsertChunks(t, filename, chunks, |text|, meta, embed, now);
    InsertedRows(t, filename, chunks, |text|, meta, embed, now);
    forall k | 0 <= k < |chunks| {
      RowReadsBack(t.nextId + k, filename, chunks[k], k, embed(chunks[k]).value, metadata, now(k));
    }
  }

  /** `embed_document` keeps the table well numbered. */
  lemma IngestNumbering(
    t: Table, filePath: string, metadata: Option<seq<Json.Member>>,
    present: string -> bool, read: (string, Paths.Format) -> Result<string>,
    embed: string -> Result<Vector>, now: nat -> string)
    requires WellNumbered(t)
    ensures WellNumbered(Ingest(t, filePath, metadata, present, read, embed, now).1)
  {
    match Paths.ExtractText(filePath, present, read)
    case Err(_) =>
    case Ok(text) =>
      match Chunker.Chunks(text, Chunker.DefaultChunkSize, Chunker.DefaultOverlap)
      case Err(_) =>
      case Ok(chunks) =>
        if chunks != [] {
          InsertNumbering(t, Paths.Name(filePath), chunks, |text|, StoredMetadata(metadata), embed, now);
        }
  }

  lemma InsertNumbering(
    t: Table, filename: string, chunks: seq<string>, size: nat, meta: string,
    embed: string -> Result<Vector>, now: nat -> string)
    requires WellNumbered(t)
    ensures WellNumbered(InsertChunks(t, filename, chunks, size, meta, embed, now).1)
  {
    match EmbedAll(chunks, embed)
    case Err(_) =>
    case Ok(vectors) =>
      var added := NewRows(t.nextId, filename, chunks, vectors, meta, now);
      IdsOfAppend(t.rows, added, 1, t.nextId, t.nextId + |chunks|);
  }

  // ---------------------------------------------------------------- delete_document

  /** `SELECT COUNT(*) FROM documents WHERE filename = ?`. */
  function CountOf(rows: seq<Row>, filename: string): (n: nat)
    ensures n <= |rows|
  {
    if rows == [] then 0
    else (if rows[0].filename == filename then 1 else 0) + CountOf(rows[1..], filename)
  }

  /** The table after `DELETE FROM documents WHERE filename = ?`: the other rows, in order. */
  function Without(rows: seq<Row>, filename: string): (r: seq<Row>)
    ensures |r| + CountOf(rows, filename) == |rows|
  {
    if rows == [] then []
    else if rows[0].filename == filename then Without(rows[1..], filename)
    else [rows[0]] + Without(rows[1..], filename)
  }

  /** The rows left are exactly the rows of the other files. */
  lemma {:induction false} WithoutMembers(rows: seq<Row>, filename: string)
    ensures forall x :: x in Without(rows, filename) <==> x in rows && x.filename != filename
  {
    if rows != [] {
      WithoutMembers(rows[1..], filename);
      assert rows == [rows[0]] + rows[1..];
    }
  }

  /** `delete_document(filename)` on table `t`: the answer and the table afterwards. */
  function Delete(t: Table, filename: string): (DeleteResponse, Table) {
    var count := CountOf(t.rows, filename);
    if count == 0 then (DeleteFailed(NotFound), t)
    else (Deleted(filename, count), Table(Without(t.rows, filename), t.nextId))
  }

  /** Deleting a file takes away exactly its rows: none of them is left, every other file keeps
      all of its rows, and the table shrinks by the number reported. */
  lemma {:induction false} WithoutCounts(rows: seq<Row>, filename: string, other: string)
    ensures CountOf(Without(rows, filename), filename) == 0
    ensures other != filename ==> CountOf(Without(rows, filename), other) == CountOf(rows, other)
  {
    if rows != [] {
      WithoutCounts(rows[1..], filename, other);
      if rows[0].filename != filename {
        assert Without(rows, filename)[1..] == Without(rows[1..], filename);
      }
    }
  }

  /** A file without rows is not found, and nothing changes; otherwise the answer reports how
      many rows went, and only the rows of that file went. */
  lemma DeleteOutcome(t: Table, filename: string)
    ensures var (r, after) := Delete(t, filename);
            (r.DeleteFailed? <==> CountOf(t.rows, filename) == 0) &&
            (r.DeleteFailed? ==> r.error == NotFound && after == t) &&
            (r.Deleted? ==> r.filename == filename && r.chunksDeleted == CountOf(t.rows, filename) &&
                            |after.rows| == |t.rows| - r.chunksDeleted) &&
            after.nextId == t.nextId &&
            (forall x :: x in after.rows <==> x in t.rows && x.filename != filename)
  {
    var count := CountOf(t.rows, filename);
    WithoutMembers(t.rows, filename);
    if count == 0 {
      WithoutNone(t.rows, filename);
    }
  }

  /** With no row of the file, the delete keeps every row. */
  lemma {:induction false} WithoutNone(rows: seq<Row>, filename: string)
    requires CountOf(rows, filename) == 0
    ensures Without(rows, filename) == rows
  {
    if rows != [] {
      WithoutNone(rows[1..], filename);
      assert rows == [rows[0]] + rows[1..];
    }
  }

  /** The rows left keep their order: ids still increase, within the same bounds. */
  lemma {:induction false} WithoutNumbering(rows: seq<Row>, filename: string, lo: int, hi: int)
    requires IdsIncreasing(rows) && IdsWithin(rows, lo, hi)
    ensures IdsIncreasing(Without(rows, filename)) && IdsWithin(Without(rows, filename), lo, hi)
  {
    if rows != [] {
      var x := rows[0];
      var tail := rows[1..];
      var rest := Without(tail, filename);
      assert IdsWithin(tail, x.id + 1, hi) by {
        forall i | 0 <= i < |tail| ensures x.id + 1 <= tail[i].id < hi {
          assert tail[i] == rows[i + 1];
        }
      }
      WithoutNumbering(tail, filename, x.id + 1, hi);
      if x.filename != filename {
        IdsOfAppend([x], rest, lo, x.id + 1, hi);
        assert Without(rows, filename) == [x] + rest;
      }
    }
  }

  // ---------------------------------------------------------------- get_stats

  /** The distinct file names of the rows: `COUNT(DISTINCT filename)` is its size. */
  function FilenameSet(rows: seq<Row>): set<string> {
    if rows == [] then {} else {rows[0].filename} + FilenameSet(rows[1..])
  }

  /** The names in the set are the names of the rows. */
  lemma {:induction false} FilenameSetMembers(rows: seq<Row>)
    ensures forall f :: f in FilenameSet(rows) <==> exists x :: x in rows && x.filename == f
  {
    if rows != [] {
      FilenameSetMembers(rows[1..]);
      assert rows == [rows[0]] + rows[1..];
    }
  }

  /** `SELECT filename, COUNT(*) ... GROUP BY filename`, one group per file, listed in the order
      the files first appear. */
  function FileCounts(rows: seq<Row>): seq<FileCount>
    decreases |rows|
  {
    if rows == [] then []
    else
      var f := rows[0].filename;
      [FileCount(f, CountOf(rows, f))] + FileCounts(Without(rows[1..], f))
  }

  /** The `chunks` of all groups added up. */
  function TotalOf(files: seq<FileCount>): nat {
    if files == [] then 0 else files[0].chunks + TotalOf(files[1..])
  }

  lemma {:induction false} FilenameSetWithout(rows: seq<Row>, filename: string)
    ensures FilenameSet(Without(rows, filename)) == FilenameSet(rows) - {filename}
  {
    if rows != [] {
      FilenameSetWithout(rows[1..], filename);
      if rows[0].filename != filename {
        assert Without(rows, filename) == [rows[0]] + Without(rows[1..], filename);
        assert Without(rows, filename)[1..] == Without(rows[1..], filename);
      }
    }
  }

  /** The counts of the groups add up to `total_chunks`. */
  lemma {:induction false} FileCountsTotal(rows: seq<Row>)
    ensures TotalOf(FileCounts(rows)) == |rows|
    decreases |rows|
  {
    if rows != [] {
      var f := rows[0].filename;
      FileCountsTotal(Without(rows[1..], f));
    }
  }

  /** Each group names a file of the table and counts its rows, at least one. */
  predicate GroupsCount(files: seq<FileCount>, rows: seq<Row>) {
    forall i :: 0 <= i < |files| ==>
      files[i].filename in FilenameSet(rows) &&
      files[i].chunks == CountOf(rows, files[i].filename) && files[i].chunks > 0
  }

  /** No file has two groups. */
  predicate GroupsDistinct(files: seq<FileCount>) {
    forall i, j :: 0 <= i < j < |files| ==> files[i].filename != files[j].filename
  }

  /** Every file of the table has a group. */
  predicate GroupsCover(files: seq<FileCount>, rows: seq<Row>) {
    forall f :: f in FilenameSet(rows) ==> exists i :: 0 <= i < |files| && files[i].filename == f
  }

  lemma {:induction false} FileCountsEntries(rows: seq<Row>)
    ensures GroupsCount(FileCounts(rows), rows)
    decreases |rows|
  {
    if rows != [] {
      var f := rows[0].filename;
      var rest := rows[1..];
      var w := Without(rest, f);
      var tail := FileCounts(w);
      var files := FileCounts(rows);
      FileCountsEntries(w);
      FilenameSetWithout(rest, f);
      assert files == [FileCount(f, CountOf(rows, f))] + tail;
      assert FilenameSet(rows) == {f} + FilenameSet(rest);
      forall i | 0 < i < |files|
        ensures files[i].filename in FilenameSet(rows)
        ensures files[i].chunks == CountOf(rows, files[i].filename) && files[i].chunks > 0
      {
        var g := tail[i - 1].filename;
        assert files[i] == tail[i - 1];
        assert g in FilenameSet(w) && tail[i - 1].chunks == CountOf(w, g) && tail[i - 1].chunks > 0;
        WithoutCounts(rest, f, g);
        assert CountOf(rows, g) == CountOf(rest, g);
      }
    }
  }

  lemma {:induction false} FileCountsDistinct(rows: seq<Row>)
    ensures GroupsDistinct(FileCounts(rows))
    decreases |rows|
  {
    if rows != [] {
      var f := rows[0].filename;
      var rest := rows[1..];
      var w := Without(rest, f);
      var tail := FileCounts(w);
      var files := FileCounts(rows);
      FileCountsDistinct(w);
      FileCountsEntries(w);
      FilenameSetWithout(rest, f);
      assert files == [FileCount(f, CountOf(rows, f))] + tail;
      forall i, j | 0 <= i < j < |files| ensures files[i].filename != files[j].filename {
        assert files[j] == tail[j - 1];
        assert tail[j - 1].filename in FilenameSet(w);
        if i > 0 {
          assert files[i] == tail[i - 1];
        } else {
          assert files[i].filename == f;
        }
      }
    }
  }

  lemma {:induction false} FileCountsCover(rows: seq<Row>)
    ensures GroupsCover(FileCounts(rows), rows)
    decreases |rows|
  {
    if rows != [] {
      var f := rows[0].filename;
      var rest := rows[1..];
      var w := Without(rest, f);
      var tail := FileCounts(w);
      var files := FileCounts(rows);
      FileCountsCover(w);
      FilenameSetWithout(rest, f);
      assert files == [FileCount(f, CountOf(rows, f))] + tail;
      assert FilenameSet(rows) == {f} + FilenameSet(rest);
      forall g | g in FilenameSet(rows) ensures exists i :: 0 <= i < |files| && files[i].filename == g {
        if g == f {
          assert files[0].filename == g;
        } else {
          assert g in FilenameSet(w);
          var i :| 0 <= i < |tail| && tail[i].filename == g;
          assert files[i + 1].filename == g;
        }
      }
    }
  }

  /** There are as many groups as `COUNT(DISTINCT filename)`. */
  lemma {:induction false} FileCountsSize(rows: seq<Row>)
    ensures |FileCounts(rows)| == |FilenameSet(rows)|
    decreases |rows|
  {
    if rows != [] {
      var f := rows[0].filename;
      var rest := rows[1..];
      FileCountsSize(Without(rest, f));
      FilenameSetWithout(rest, f);
      assert FilenameSet(rows) == (FilenameSet(rest) - {f}) + {f};
    }
  }

  /** Deleting a file takes it out of the GROUP BY listing, and leaves every other file's count
      as it was. */
  lemma DeleteFromStats(rows: seq<Row>, filename: string)
    ensures var files := FileCounts(Without(rows, filename));
            (forall i :: 0 <= i < |files| ==>
               files[i].filename != filename &&
               files[i].chunks == CountOf(rows, files[i].filename)) &&
            TotalOf(files) == |rows| - CountOf(rows, filename)
  {
    var after := Without(rows, filename);
    FileCountsEntries(after);
    FileCountsTotal(after);
    FilenameSetWithout(rows, filename);
    var files := FileCounts(after);
    forall i | 0 <= i < |files| ensures files[i].chunks == CountOf(rows, files[i].filename) {
      WithoutCounts(rows, filename, files[i].filename);
    }
  }

  // ---------------------------------------------------------------- search_similar

  /** The sort key of `search_similar`: the similarity, or 0 when there is none. */
  function SimilarityKey(c: Chunk): real {
    if c.similarity.Some? then c.similarity.value else 0.0
  }

  /** The position of a hit's row in a table scan, which is rowid order. */
  function ChunkRank(c: Chunk): int {
    c.id
  }

  /** The loop body of `search_similar` on one row: decode the embedding, score it against the
      query and, when the score reaches the threshold, build the hit. A blob `frombuffer`
      rejects, a failing similarity (vectors of different lengths) and unreadable metadata
      raise out of the search. */
  function Hit(row: Row, query: Vector, minSimilarity: Score,
               similarity: (Vector, Vector) -> Result<Score>): (r: Result<Option<Chunk>>)
    ensures r.Ok? && r.value.Some? ==>
              r.value.value.id == row.id && r.value.value.similarity.Some? &&
              AtLeast(Num(r.value.value.similarity.value), minSimilarity)
    ensures r.Ok? && r.value.Some? ==>
              FromBuffer(row.embedding).Ok? &&
              similarity(query, FromBuffer(row.embedding).value) == Ok(Num(r.value.value.similarity.value)) &&
              r.value.value.filename == row.filename && r.value.value.content == row.content &&
              r.value.value.chunkId == row.chunkId && r.value.value.createdAt == row.createdAt &&
              LoadedMetadata(row.metadata) == Ok(r.value.value.metadata)
    ensures (FromBuffer(row.embedding).Ok? &&
             similarity(query, FromBuffer(row.embedding).value) == Ok(NaN)) ==> r == Ok(None)
    ensures forall score :: (FromBuffer(row.embedding).Ok? &&
             similarity(query, FromBuffer(row.embedding).value) == Ok(score) &&
             !AtLeast(score, minSimilarity)) ==> r == Ok(None)
    ensures forall score :: (FromBuffer(row.embedding).Ok? &&
             similarity(query, FromBuffer(row.embedding).value) == Ok(score) &&
             AtLeast(score, minSimilarity)) ==>
              (r.Ok? <==> LoadedMetadata(row.metadata).Ok?) &&
              (r.Ok? ==> r.value.Some? && r.value.value.similarity == Some(score.value))
  {
    match FromBuffer(row.embedding)
    case Err(e) => Err(e)
    case Ok(doc) =>
      match similarity(query, doc)
      case Err(e) => Err(e)
      case Ok(score) =>
        if !AtLeast(score, minSimilarity) then Ok(None)
        else
          match LoadedMetadata(row.metadata)
          case Err(e) => Err(e)
          case Ok(meta) =>
            Ok(Some(Chunk(row.id, row.filename, row.content, row.chunkId, meta, row.createdAt,
                          Some(score.value))))
  }

  /** The `results` list after the loop of `search_similar` over `rows`, or the error of the
      first row that raises. */
  function Candidates(rows: seq<Row>, query: Vector, minSimilarity: Score,
                      similarity: (Vector, Vector) -> Result<Score>): (r: Result<seq<Chunk>>)
    ensures r.Ok? ==> |r.value| <= |rows|
    decreases |rows|
  {
    if rows == [] then Ok([])
    else
      match Candidates(rows[..|rows| - 1], query, minSimilarity, similarity)
      case Err(e) => Err(e)
      case Ok(cs) =>
        match Hit(rows[|rows| - 1], query, minSimilarity, similarity)
        case Err(e) => Err(e)
        case Ok(None) => Ok(cs)
        case Ok(Some(c)) => Ok(cs + [c])
  }

  /** `search_similar(query, top_k, min_similarity)` on `rows`: the hits sorted by similarity,
      highest first, cut to `top_k` as `results[:top_k]` does. */
  function Search(rows: seq<Row>, query: string, topK: int, minSimilarity: Score,
                  embed: string -> Result<Vector>,
                  similarity: (Vector, Vector) -> Result<Score>): Result<seq<Chunk>>
  {
    match embed(query)
    case Err(e) => Err(e)
    case Ok(q) =>
      match Candidates(rows, q, minSimilarity, similarity)
      case Err(e) => Err(e)
      case Ok(cs) => Ok(Prefix(SortDesc(cs, SimilarityKey), topK))
  }

  /** Once a row has raised, the search raises that error whatever rows follow. */
  lemma {:induction false} CandidatesStop(rows: seq<Row>, n: nat, query: Vector, minSimilarity: Score,
                                          similarity: (Vector, Vector) -> Result<Score>)
    requires n <= |rows| && Candidates(rows[..n], query, minSimilarity, similarity).Err?
    ensures Candidates(rows, query, minSimilarity, similarity) ==
            Candidates(rows[..n], query, minSimilarity, similarity)
    decreases |rows| - n
  {
    if n < |rows| {
      var init := rows[..|rows| - 1];
      assert init[..n] == rows[..n];
      CandidatesStop(init, n, query, minSimilarity, similarity);
    } else {
      assert rows[..n] == rows;
    }
  }

  /** Every hit comes from a row of the table. */
  lemma {:induction false} CandidatesSound(rows: seq<Row>, query: Vector, minSimilarity: Score,
                                           similarity: (Vector, Vector) -> Result<Score>)
    requires Candidates(rows, query, minSimilarity, similarity).Ok?
    ensures var cs := Candidates(rows, query, minSimilarity, similarity).value;
            forall c :: c in cs ==>
              exists i :: 0 <= i < |rows| && Hit(rows[i], query, minSimilarity, similarity) == Ok(Some(c))
    decreases |rows|
  {
    if rows != [] {
      var init := rows[..|rows| - 1];
      CandidatesSound(init, query, minSimilarity, similarity);
      var cs := Candidates(rows, query, minSimilarity, similarity).value;
      forall c | c in cs
        ensures exists i :: 0 <= i < |rows| && Hit(rows[i], query, minSimilarity, similarity) == Ok(Some(c))
      {
        if c !in Candidates(init, query, minSimilarity, similarity).value {
          assert Hit(rows[|rows| - 1], query, minSimilarity, similarity) == Ok(Some(c));
        } else {
          var i :| 0 <= i < |init| && Hit(init[i], query, minSimilarity, similarity) == Ok(Some(c));
          assert init[i] == rows[i];
        }
      }
    }
  }

  /** A search that returns has read every row without error, and kept every row that reaches
      the threshold. */
  lemma {:induction false} CandidatesComplete(rows: seq<Row>, query: Vector, minSimilarity: Score,
                                              similarity: (Vector, Vector) -> Result<Score>)
    requires Candidates(rows, query, minSimilarity, similarity).Ok?
    ensures var cs := Candidates(rows, query, minSimilarity, similarity).value;
            forall i :: 0 <= i < |rows| ==>
              Hit(rows[i], query, minSimilarity, similarity).Ok? &&
              (Hit(rows[i], query, minSimilarity, similarity).value.Some? ==>
                 Hit(rows[i], query, minSimilarity, similarity).value.value in cs)
    decreases |rows|
  {
    if rows != [] {
      var init := rows[..|rows| - 1];
      CandidatesComplete(init, query, minSimilarity, similarity);
      forall i | 0 <= i < |init| ensures init[i] == rows[i] { }
    }
  }

  /** The same in terms of the score: every row whose blob decodes and whose score reaches the
      threshold has a result with its id, file, content and that score. */
  lemma KeepsPassingRows(rows: seq<Row>, query: Vector, minSimilarity: Score,
                         similarity: (Vector, Vector) -> Result<Score>, i: int, score: Score)
    requires Candidates(rows, query, minSimilarity, similarity).Ok?
    requires 0 <= i < |rows| && FromBuffer(rows[i].embedding).Ok?
    requires similarity(query, FromBuffer(rows[i].embedding).value) == Ok(score)
    requires AtLeast(score, minSimilarity)
    ensures exists c :: c in Candidates(rows, query, minSimilarity, similarity).value &&
              c.id == rows[i].id && c.filename == rows[i].filename &&
              c.content == rows[i].content && c.chunkId == rows[i].chunkId &&
              c.similarity == Some(score.value)
  {
    CandidatesComplete(rows, query, minSimilarity, similarity);
    var h := Hit(rows[i], query, minSimilarity, similarity);
    assert h.Ok? && h.value.Some?;
    assert h.value.value in Candidates(rows, query, minSimilarity, similarity).value;
  }

  /** The hits come in table-scan order: their ids increase. */
  lemma {:induction false} CandidatesInScanOrder(rows: seq<Row>, query: Vector, minSimilarity: Score,
                                                 similarity: (Vector, Vector) -> Result<Score>)
    requires IdsIncreasing(rows)
    requires Candidates(rows, query, minSimilarity, similarity).Ok?
    ensures Increasing(Candidates(rows, query, minSimilarity, similarity).value, ChunkRank)
    decreases |rows|
  {
    if rows != [] {
      var init := rows[..|rows| - 1];
      var last := rows[|rows| - 1];
      var prior := Candidates(init, query, minSimilarity, similarity).value;
      assert IdsIncreasing(init) by {
        forall i, j | 0 <= i < j < |init| ensures init[i].id < init[j].id {
          assert init[i] == rows[i] && init[j] == rows[j];
        }
      }
      CandidatesInScanOrder(init, query, minSimilarity, similarity);
      var hit := Hit(last, query, minSimilarity, similarity);
      if hit.value.Some? {
        CandidatesSound(init, query, minSimilarity, similarity);
        var cs := prior + [hit.value.value];
        forall a | 0 <= a < |prior| ensures prior[a].id < last.id {
          assert prior[a] in prior;
          var i :| 0 <= i < |init| && Hit(init[i], query, minSimilarity, similarity) == Ok(Some(prior[a]));
          assert init[i] == rows[i];
        }
        forall a, b | 0 <= a < b < |cs| ensures ChunkRank(cs[a]) < ChunkRank(cs[b]) {
          assert cs[a] == prior[a];
          if b < |prior| { assert cs[b] == prior[b]; }
        }
      }
    }
  }

  /** Every hit reaches the threshold (so a NaN score is never a hit) and comes from a row of
      the table. */
  lemma SearchFilter(rows: seq<Row>, query: string, topK: int, minSimilarity: Score,
                     embed: string -> Result<Vector>,
                     similarity: (Vector, Vector) -> Result<Score>)
    requires Search(rows, query, topK, minSimilarity, embed, similarity).Ok?
    ensures embed(query).Ok?
    ensures var hits := Search(rows, query, topK, minSimilarity, embed, similarity).value;
            forall h :: h in hits ==>
              h.similarity.Some? && AtLeast(Num(h.similarity.value), minSimilarity) &&
              exists i :: 0 <= i < |rows| && Hit(rows[i], embed(query).value, minSimilarity, similarity) == Ok(Some(h))
  {
    var q := embed(query).value;
    var cs := Candidates(rows, q, minSimilarity, similarity).value;
    var sorted := SortDesc(cs, SimilarityKey);
    var hits := Prefix(sorted, topK);
    CandidatesSound(rows, q, minSimilarity, similarity);
    SortDescPermutation(cs, SimilarityKey);
    PrefixLength(sorted, topK);
    forall h | h in hits ensures h in cs {
      assert h in multiset(sorted);
    }
  }

  /** At most `top_k` hits, and all of them when there are fewer; none from an empty table. */
  lemma SearchBound(rows: seq<Row>, query: string, topK: int, minSimilarity: Score,
                    embed: string -> Result<Vector>,
                    similarity: (Vector, Vector) -> Result<Score>)
    requires Search(rows, query, topK, minSimilarity, embed, similarity).Ok?
    ensures embed(query).Ok? && Candidates(rows, embed(query).value, minSimilarity, similarity).Ok?
    ensures var hits := Search(rows, query, topK, minSimilarity, embed, similarity).value;
            var cs := Candidates(rows, embed(query).value, minSimilarity, similarity).value;
            (topK >= 0 ==> |hits| == Min(topK, |cs|) && |hits| <= topK) &&
            (rows == [] ==> hits == [])
  {
    var cs := Candidates(rows, embed(query).value, minSimilarity, similarity).value;
    PrefixLength(SortDesc(cs, SimilarityKey), topK);
  }

  /** The hits are in non-increasing order of similarity, and hits with equal similarity keep
      table-scan order: Python's sort is stable, also with `reverse=True`. */
  lemma SearchOrder(rows: seq<Row>, query: string, topK: int, minSimilarity: Score,
                    embed: string -> Result<Vector>,
                    similarity: (Vector, Vector) -> Result<Score>)
    requires Search(rows, query, topK, minSimilarity, embed, similarity).Ok?
    ensures var hits := Search(rows, query, topK, minSimilarity, embed, similarity).value;
            SortedDesc(hits, SimilarityKey) &&
            (IdsIncreasing(rows) ==>
               forall i, j :: 0 <= i < j < |hits| && hits[i].similarity == hits[j].similarity ==>
                 hits[i].id < hits[j].id)
  {
    var q := embed(query).value;
    var cs := Candidates(rows, q, minSimilarity, similarity).value;
    var sorted := SortDesc(cs, SimilarityKey);
    var hits := Prefix(sorted, topK);
    PrefixLength(sorted, topK);
    SortDescSorted(cs, SimilarityKey);
    assert forall i :: 0 <= i < |hits| ==> hits[i] == sorted[i];
    if IdsIncreasing(rows) {
      CandidatesInScanOrder(rows, q, minSimilarity, similarity);
      SortDescTies(cs, SimilarityKey, ChunkRank);
      forall i, j | 0 <= i < j < |hits| && hits[i].similarity == hits[j].similarity
        ensures hits[i].id < hits[j].id
      {
        assert hits[i] == sorted[i] && hits[j] == sorted[j];
        assert SimilarityKey(sorted[i]) == SimilarityKey(sorted[j]);
        assert ChunkRank(sorted[i]) < ChunkRank(sorted[j]);
      }
    }
  }

  /** The hits are the best: a hit cut off by `top_k` scores no higher than any hit returned. */
  lemma SearchTopK(rows: seq<Row>, query: string, topK: int, minSimilarity: Score,
                   embed: string -> Result<Vector>,
                   similarity: (Vector, Vector) -> Result<Score>)
    requires Search(rows, query, topK, minSimilarity, embed, similarity).Ok?
    ensures embed(query).Ok? && Candidates(rows, embed(query).value, minSimilarity, similarity).Ok?
    ensures var hits := Search(rows, query, topK, minSimilarity, embed, similarity).value;
            var cs := Candidates(rows, embed(query).value, minSimilarity, similarity).value;
            multiset(hits) <= multiset(cs) &&
            forall c, h :: c in multiset(cs) - multiset(hits) && h in hits ==>
              SimilarityKey(c) <= SimilarityKey(h)
  {
    var q := embed(query).value;
    var cs := Candidates(rows, q, minSimilarity, similarity).value;
    var sorted := SortDesc(cs, SimilarityKey);
    var m := Bound(topK, |sorted|);
    var hits := sorted[..m];
    assert sorted == hits + sorted[m..];
    SortDescPermutation(cs, SimilarityKey);
    SortDescSorted(cs, SimilarityKey);
    SortedCut(sorted, SimilarityKey, m);
    assert multiset(cs) == multiset(hits) + multiset(sorted[m..]);
    forall c, h | c in multiset(cs) - multiset(hits) && h in hits
      ensures SimilarityKey(c) <= SimilarityKey(h)
    {
      assert c in multiset(sorted[m..]);
      assert c in sorted[m..];
    }
  }

  // ---------------------------------------------------------------- get_document_info

  /** `SELECT ... FROM documents WHERE id = ?` with the id given as text: the first row whose
      id is written that way. */
  function FindRow(rows: seq<Row>, documentId: string): (r: Option<Row>)
  {
    if rows == [] then None
    else if Json.IntText(rows[0].id) == documentId then Some(rows[0])
    else FindRow(rows[1..], documentId)
  }

  /** `DocumentChunk(...)` built from a row: the metadata must decode, and to a dict or null. */
  function RowChunk(row: Row): Result<Chunk> {
    match LoadedMetadata(row.metadata)
    case Err(e) => Err(e)
    case Ok(meta) =>
      if meta.Obj? || meta.Null? then
        Ok(Chunk(row.id, row.filename, row.content, row.chunkId, meta, row.createdAt, None))
      else Err(NotADict)
  }

  /** `get_document_info` as written: an error in building the answer reaches the handler,
      whose call on the undefined `logger` raises a NameError. */
  function LookupAsWritten(rows: seq<Row>, documentId: string): Result<Option<Chunk>> {
    match FindRow(rows, documentId)
    case None => Ok(None)
    case Some(row) =>
      match RowChunk(row)
      case Err(_) => Err(LoggerMissing)
      case Ok(c) => Ok(Some(c))
  }

  /** `get_document_info` as its handler intends: any error gives None. */
  function Lookup(rows: seq<Row>, documentId: string): Option<Chunk> {
    match FindRow(rows, documentId)
    case None => None
    case Some(row) =>
      match RowChunk(row)
      case Err(_) => None
      case Ok(c) => Some(c)
  }

  /** `str(i)` is one-to-one, so at most one row of a well-numbered table has a given id text. */
  lemma IntTextInjective(a: int, b: int)
    requires Json.IntText(a) == Json.IntText(b)
    ensures a == b
  {
    Json.ParseNumberOfText(a, "");
    Json.ParseNumberOfText(b, "");
    assert Json.IntText(a) + "" == Json.IntText(b) + "";
  }

  lemma {:induction false} FindRowFacts(rows: seq<Row>, documentId: string)
    ensures FindRow(rows, documentId).Some? ==>
              FindRow(rows, documentId).value in rows &&
              Json.IntText(FindRow(rows, documentId).value.id) == documentId
    ensures FindRow(rows, documentId).None? <==> forall x :: x in rows ==> Json.IntText(x.id) != documentId
  {
    if rows != [] {
      FindRowFacts(rows[1..], documentId);
      assert rows == [rows[0]] + rows[1..];
    }
  }

  /** The lookup returns the row with the id asked for, with its columns, its metadata decoded
      (`{}` when absent) and no similarity; and nothing when no row has that id. */
  lemma LookupFacts(rows: seq<Row>, documentId: string)
    ensures Lookup(rows, documentId).Some? ==>
              var c := Lookup(rows, documentId).value;
              exists x :: x in rows && Json.IntText(x.id) == documentId &&
                c == Chunk(x.id, x.filename, x.content, x.chunkId, c.metadata, x.createdAt, None) &&
                LoadedMetadata(x.metadata) == Ok(c.metadata) &&
                (x.metadata.None? ==> c.metadata == Json.Obj([]))
    ensures (forall x :: x in rows ==> Json.IntText(x.id) != documentId) ==>
              Lookup(rows, documentId).None?
  {
    FindRowFacts(rows, documentId);
  }

  /** In a well-numbered table the row found is the one row with that id. */
  lemma {:induction false} FindRowById(rows: seq<Row>, i: nat)
    requires IdsIncreasing(rows) && i < |rows|
    ensures FindRow(rows, Json.IntText(rows[i].id)) == Some(rows[i])
  {
    if Json.IntText(rows[0].id) == Json.IntText(rows[i].id) {
      IntTextInjective(rows[0].id, rows[i].id);
    } else {
      var tail := rows[1..];
      assert tail[i - 1] == rows[i];
      assert IdsIncreasing(tail) by {
        forall a, b | 0 <= a < b < |tail| ensures tail[a].id < tail[b].id {
          assert tail[a] == rows[a + 1] && tail[b] == rows[b + 1];
        }
      }
      FindRowById(tail, i - 1);
    }
  }

  /** Looking up a row by its id gives that row. */
  lemma LookupById(rows: seq<Row>, i: nat)
    requires IdsIncreasing(rows) && i < |rows|
    ensures RowChunk(rows[i]).Ok? ==> Lookup(rows, Json.IntText(rows[i].id)) == Some(RowChunk(rows[i]).value)
    ensures RowChunk(rows[i]).Err? ==> Lookup(rows, Json.IntText(rows[i].id)) == None
  {
    FindRowById(rows, i);
  }

  /** The handler differs from the intended one only where building the answer fails: there it
      raises instead of answering None. */
  lemma LookupAsWrittenAgrees(rows: seq<Row>, documentId: string)
    ensures LookupAsWritten(rows, documentId).Ok? ==>
              LookupAsWritten(rows, documentId).value == Lookup(rows, documentId)
    ensures LookupAsWritten(rows, documentId).Err? <==>
              FindRow(rows, documentId).Some? && RowChunk(FindRow(rows, documentId).value).Err?
  {
  }

  /** A row whose metadata is a JSON list: the handler of `get_document_info` raises a NameError
      where None is promised. */
  lemma LookupAsWrittenRaises()
    ensures var rows := [Row(1, "notes.txt", "text", 0, [], Some("[]"), "2024-01-01 00:00:00")];
            LookupAsWritten(rows, "1") == Err(LoggerMissing) && Lookup(rows, "1") == None
  {
    var rows := [Row(1, "notes.txt", "text", 0, [], Some("[]"), "2024-01-01 00:00:00")];
    assert Json.IntText(1) == "1";
    assert FindRow(rows, "1") == Some(rows[0]);
    assert Json.Loads("[]") == Ok(Json.Arr([]));
  }

  // ---------------------------------------------------------------- the class

  /** `RAGDatabase`: the path of its database file and the `documents` table in it. */
  class RAGDatabase {
    const dbPath: string
    var rows: seq<Row>
    var nextId: int

    ghost predicate Valid()
      reads this
    {
      WellNumbered(Table(rows, nextId))
    }

    /** `RAGDatabase(db_path)` and `init_database`: CREATE TABLE IF NOT EXISTS keeps the rows
        the file already holds; `sequence` is the largest id ever handed out in it (0 for a
        new file). */
    constructor(dbPath: string, existing: seq<Row>, sequence: nat)
      requires WellNumbered(Table(existing, sequence + 1))
      ensures this.dbPath == dbPath && rows == existing && nextId == sequence + 1
      ensures Valid()
    {
      this.dbPath := dbPath;
      rows := existing;
      nextId := sequence + 1;
    }

    /** `embed_document(file_path, metadata)`. */
    method EmbedDocument(
      filePath: string, metadata: Option<seq<Json.Member>>,
      present: string -> bool, read: (string, Paths.Format) -> Result<string>,
      embed: string -> Result<Vector>, now: nat -> string) returns (r: EmbedResponse)
      requires Valid()
      modifies this
      ensures Valid()
      ensures (r, Table(rows, nextId)) ==
              Ingest(Table(old(rows), old(nextId)), filePath, metadata, present, read, embed, now)
    {
      var t := Table(rows, nextId);
      var after;
      r, after := IngestSteps(t, filePath, metadata, present, read, embed, now);
      IngestNumbering(t, filePath, metadata, present, read, embed, now);
      rows, nextId := after.rows, after.nextId;
    }

    /** `search_similar(query, top_k, min_similarity)`: `embed` is the embedding model and
        `similarity` the cosine similarity of two vectors. */
    method SearchSimilar(
      query: string, topK: int, minSimilarity: Score,
      embed: string -> Result<Vector>,
      similarity: (Vector, Vector) -> Result<Score>) returns (r: Result<seq<Chunk>>)
      ensures r == Search(rows, query, topK, minSimilarity, embed, similarity)
    {
      var queryEmbedding := embed(query);
      if queryEmbedding.Err? {
        return Err(queryEmbedding.error);
      }
      var q := queryEmbedding.value;
      var results: seq<Chunk> := [];
      for i := 0 to |rows|
        invariant Candidates(rows[..i], q, minSimilarity, similarity) == Ok(results)
      {
        assert rows[..i + 1][..i] == rows[..i];
        var hit := Hit(rows[i], q, minSimilarity, similarity);
        if hit.Err? {
          CandidatesStop(rows, i + 1, q, minSimilarity, similarity);
          return Err(hit.error);
        }
        if hit.value.Some? {
          results := results + [hit.value.value];
        }
      }
      assert rows[..|rows|] == rows;
      var ranked := SortDesc(results, SimilarityKey);
      return Ok(Prefix(ranked, topK));
    }

    /** `delete_document(filename)`. */
    method DeleteDocument(filename: string) returns (r: DeleteResponse)
      requires Valid()
      modifies this
      ensures Valid()
      ensures (r, Table(rows, nextId)) == Delete(Table(old(rows), old(nextId)), filename)
    {
      var count := CountOf(rows, filename);
      if count == 0 {
        return DeleteFailed(NotFound);
      }
      WithoutNumbering(rows, filename, 1, nextId);
      rows := Without(rows, filename);
      return Deleted(filename, count);
    }

    /** db.py's `get_stats`: the three queries agree with each other. */
    function GetStats(): (s: Stats)
      reads this
      ensures s.totalChunks == |rows| && s.uniqueFiles == |s.files| && TotalOf(s.files) == s.totalChunks
      ensures GroupsCount(s.files, rows) && GroupsDistinct(s.files) && GroupsCover(s.files, rows)
      ensures s.embeddingModel == EmbeddingModel && s.databasePath == dbPath
    {
      FileCountsTotal(rows);
      FileCountsSize(rows);
      FileCountsEntries(rows);
      FileCountsDistinct(rows);
      FileCountsCover(rows);
      Stats(|rows|, |FilenameSet(rows)|, FileCounts(rows), EmbeddingModel, dbPath)
    }

    /** The packaged `get_stats`: one summary for all files, named `*`, with the total row
        count, which is the sum of the per-file counts. */
    function GetStatsSummary(): (info: DocumentInfo)
      reads this
      ensures info.filename == "*" && info.chunkDetails.None?
      ensures info.chunks == |rows| == TotalOf(FileCounts(rows))
      ensures info.embeddingModel == EmbeddingModel && info.databasePath == dbPath
    {
      FileCountsTotal(rows);
      DocumentInfo("*", |rows|, None, EmbeddingModel, dbPath)
    }

    /** `get_document_info(document_id)`, with the handler doing what it intends. */
    function GetDocumentInfo(documentId: string): (r: Option<Chunk>)
      reads this
      ensures r.Some? ==>
                exists x :: x in rows && Json.IntText(x.id) == documentId &&
                  r.value == Chunk(x.id, x.filename, x.content, x.chunkId, r.value.metadata, x.createdAt, None) &&
                  LoadedMetadata(x.metadata) == Ok(r.value.metadata)
      ensures (forall x :: x in rows ==> Json.IntText(x.id) != documentId) ==> r.None?
    {
      LookupFacts(rows, documentId);
      Lookup(rows, documentId)
    }
  }
}
