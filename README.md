# RAG-MCP-Server document store, modelled in Dafny

The project models `RAGDatabase`, the class behind the RAG-MCP-Server tools. The class keeps
document chunks and their embeddings in one SQLite table, `documents`. It exists in two nearly
identical versions: `db.py` and the packaged `src/rag_mcp_server/core/db.py`. The model covers:

- `chunk_text`, the whitespace word-window chunker;
- `embed_document`, which turns a file into one row per chunk;
- `search_similar`, which filters rows by similarity, sorts them and truncates the list;
- `delete_document`;
- both shapes of `get_stats`;
- `get_document_info`;
- the answer shaping in `ask_question`;
- the two column codecs: `tobytes`/`frombuffer` for the embedding and `json.dumps`/`json.loads`
  for the metadata.

Module layout:

- `Text`: Python's `str.split()`, `" ".join` and `str.strip()`.
- `Chunker`: `chunk_text`, both as the specification function `Chunks` and as the loop
  `ChunkText`/`WindowLoop`.
- `Blob`: float32 vectors as 32-bit patterns, laid out as little-endian bytes.
- `Json`: Python's default JSON encoder and its decoder, for null, booleans, integers, strings,
  lists and dicts.
- `Paths`: `Path(p).name`, `Path(p).suffix` and the choice of reader in
  `extract_text_from_file`.
- `Ranking`: the `>=` threshold on a score that may be NaN, and Python's stable
  `sort(reverse=True)`.
- `Slices`: Python slice bounds.
- `Store`: the table, the specification function of every operation, and the class
  `RAGDatabase`. The class holds the rows and the next AUTOINCREMENT id. Its methods are proved
  equal to those functions and keep the ids well numbered.
- `Answer`: `ask_question`, as written and as intended.

The file system, the embedding model and the cosine similarity are parameters: `present`,
`read`, `embed` and `similarity`. So is the clock: `now(k)` is the CURRENT_TIMESTAMP SQLite
reads for the insert of chunk `k`. Each insert is its own statement and follows its own call
to the embedding model, so the rows of one `embed_document` may carry different times. The two
variants of the class have the same logic for every operation they share: the same chunking,
inserts, queries, threshold, sort and slice. Their code differs in these places, and for each
the model says which variant it follows:

- `get_stats`: the packaged variant returns one summary `DocumentInfo` named `*`. It builds the
  per-file list and then drops it. That is `GetStatsSummary`. `db.py` returns the per-file
  breakdown. That is `GetStats`.
- `embed_document` and `search_similar` call the embedding model differently: `db.py` calls
  `self.model.encode` (db.py:95, 124), the packaged variant `self.model.feature_extraction`
  (src/rag_mcp_server/core/db.py:91, 116). Both are the parameter `embed`; see the embedding
  model line under "## Left out".
- `embed_document` and `delete_document` return plain dicts in `db.py` (db.py:109-120, 197,
  203-207) and the pydantic responses `EmbedDocumentResponse` and `DeleteDocumentResponse` in the
  packaged variant (src/rag_mcp_server/core/db.py:100-112, 190-203). The model follows the
  packaged shape without the `message` texts; see the messages line under "## Left out".
- `search_similar` builds dicts in `db.py` (db.py:147-155) and sorts on `x['similarity']`
  (db.py:160); the packaged variant builds `DocumentChunk`s (src/rag_mcp_server/core/db.py:133-141)
  and sorts on the similarity, or 0 when it is None (src/rag_mcp_server/core/db.py:143). The model
  follows the packaged key, `Store.SimilarityKey`; every hit carries a similarity, so both keys
  give the same order. It follows `db.py` in accepting any JSON value as metadata; see the
  metadata line under "## Left out".

A failed `embed_document` adds no rows: the code commits only after the whole insert loop
(src/rag_mcp_server/core/db.py:98), and an exception leaves the connection uncommitted
(`Store.IngestAtomic`).

## Model

| member | source | states |
|---|---|---|
| Text.Words | src/rag_mcp_server/core/db.py:43 | `split()` gives non-empty runs without whitespace, and gives none exactly when the text has no non-whitespace character |
| Text.WordsOfJoin | src/rag_mcp_server/core/db.py:47 | splitting words joined with single spaces gives back exactly those words |
| Text.Strip | src/rag_mcp_server/core/db.py:48 | `strip()` is empty exactly when the string has no non-whitespace character |
| Text.IsStripNonEmpty | src/rag_mcp_server/core/db.py:48 | the test `if chunk.strip():` passes exactly when the chunk has text |
| Text.JoinHasText | src/rag_mcp_server/core/db.py:47-48 | a window of at least one word always passes the strip test |
| Chunker.Chunks | src/rag_mcp_server/core/db.py:41-51 | `chunk_text` raises exactly when `chunk_size == overlap` (range step 0); it gives `[]` when `overlap > chunk_size` (negative step, empty range); the same code is db.py:40-50 |
| Chunker.ChunkText | src/rag_mcp_server/core/db.py:41-51 | the method returns what `Chunks` specifies, error case included |
| Chunker.WindowLoop | src/rag_mcp_server/core/db.py:46-49 | the loop over `range(0, len(words), step)` appends exactly the windows that pass the strip test, in order |
| Chunker.ChunkCount | src/rag_mcp_server/core/db.py:43-50 | with `0 < chunk_size` and `overlap < chunk_size`, the number of chunks is `ceil(n / s)` for `n` words and stride `s = chunk_size - overlap` |
| Chunker.ChunkContents | src/rag_mcp_server/core/db.py:46-47 | chunk `k` holds the words from `k * s` up to `k * s + chunk_size` (or the end) joined by single spaces, which is between 1 and `chunk_size` words |
| Chunker.ChunkCoverage | src/rag_mcp_server/core/db.py:46-47 | with `0 <= overlap < chunk_size`, every word of the text appears, at its offset, in some chunk |
| Chunker.ChunksReassemble | src/rag_mcp_server/core/db.py:46-47 | dropping each chunk's overlap and concatenating gives back the text's words exactly |
| Chunker.ChunksEmptyOrSingle | src/rag_mcp_server/core/db.py:43-50 | no chunks exactly when the text is blank; exactly one chunk exactly when `0 < n <= s` |
| Chunker.DefaultChunking | src/rag_mcp_server/core/db.py:83 | with the defaults 512 and 50: 480 and 600 words give 2 chunks, 1000 words give 3, and 1 to 462 words give 1 |
| Blob.ToBytes | src/rag_mcp_server/core/db.py:92 | `tobytes()` writes four bytes per float32 |
| Blob.FromBuffer | src/rag_mcp_server/core/db.py:128 | `frombuffer` fails exactly when the blob's length is not a multiple of 4, with numpy's message; otherwise it gives a quarter as many values |
| Blob.FromBufferOfToBytes | db.py:139 | decoding the stored blob gives back the embedded vector, element for element |
| Blob.ToBytesOfFromBuffer | db.py:96 | every blob `frombuffer` accepts is the `tobytes` of what it decodes to |
| Json.DumpsStart | src/rag_mcp_server/core/db.py:96 | the text `json.dumps` writes is never empty and starts with a character that opens a JSON value |
| Json.LoadsDumps | db.py:153 | `json.loads(json.dumps(v)) == v` for every value with distinct dict keys |
| Paths.Name | src/rag_mcp_server/core/db.py:88 | `Path(p).name` has no `/` and is never `.` |
| Paths.NameOfJoin | src/rag_mcp_server/core/db.py:88 | the stored `filename` of `dir/base` is `base`, whatever the directory |
| Paths.NameOfPlain | db.py:90 | a path that is a plain name is its own name |
| Paths.Suffix | src/rag_mcp_server/core/db.py:60 | `Path(p).suffix` is empty or a dot followed by at least one character that is not a dot |
| Paths.Lower | src/rag_mcp_server/core/db.py:60 | ASCII `lower()`, character by character |
| Paths.ClassifyIgnoresCase | src/rag_mcp_server/core/db.py:60-72 | the reader chosen does not depend on the case of the suffix |
| Paths.ExtractText | src/rag_mcp_server/core/db.py:53-77 | a missing file gives `File not found: p` whatever its suffix; an existing file whose lowered suffix is `.pdf` is read as PDF, `.docx` as Word, `.txt` or `.md` as plain text; any other suffix gives `Unsupported file format: ` followed by the suffix as written |
| Paths.NoSuffixUnsupported | src/rag_mcp_server/core/db.py:76-77 | a file name without a suffix is refused before anything is read |
| Ranking.SortDescSorted | src/rag_mcp_server/core/db.py:143 | `sort(key, reverse=True)` gives non-increasing keys |
| Ranking.SortDescPermutation | src/rag_mcp_server/core/db.py:143 | the sort only reorders: same multiset of elements |
| Ranking.SortDescStable | src/rag_mcp_server/core/db.py:143 | the elements with any one key keep their order |
| Ranking.SortDescTies | db.py:160 | if a rank increases along the input, it increases along every run of equal keys in the output |
| Slices.PrefixLength | src/rag_mcp_server/core/db.py:144 | `s[:k]` is a prefix with `min(k, len(s))` elements when `k >= 0`, and drops the last `-k` elements otherwise |
| Store.StoredMetadata | src/rag_mcp_server/core/db.py:96 | `json.dumps(metadata or {})` is always a JSON object text |
| Store.MetadataRoundTrip | db.py:102 | the stored metadata reads back as the dict passed in, or `{}` when none was, never null |
| Store.EmbedAll | src/rag_mcp_server/core/db.py:90-92 | when every chunk embeds, there is one vector per chunk |
| Store.EmbedAllOk | src/rag_mcp_server/core/db.py:90-92 | vector `k` is the embedding of chunk `k` |
| Store.EmbedAllFails | src/rag_mcp_server/core/db.py:90-92 | the first chunk whose embedding fails decides the error |
| Store.EmbedChunks | src/rag_mcp_server/core/db.py:90-97 | the insert loop fails exactly when an embedding fails, with the first error; otherwise it builds exactly the rows `NewRows` describes |
| Store.IngestAtomic | src/rag_mcp_server/core/db.py:98 | a failed `embed_document` leaves the table as it was |
| Store.IngestFailures | src/rag_mcp_server/core/db.py:82-85 | the three failures each carry their error: unreadable file, blank text (`No content could be extracted from the file`), first failing embedding |
| Store.InsertedAllEmbedded | src/rag_mcp_server/core/db.py:90-98 | inserting succeeds only when every chunk embeds |
| Store.InsertedRows | src/rag_mcp_server/core/db.py:90-97 | the inserts keep the old rows as a prefix and add one row per chunk, with consecutive ids, `chunk_id` `k` and the chunk as content |
| Store.IngestAppends | src/rag_mcp_server/core/db.py:88-106 | a successful `embed_document` reports the base name, the chunk count and `len(text)`, and appends one row per chunk whose embedding and metadata read back as written and whose `created_at` is the time of its own insert |
| Store.TextAppends | db.py:82-114 | the same, once the text is known |
| Store.RowReadsBack | src/rag_mcp_server/core/db.py:92-96 | a row written by the loop decodes to its vector and to the dict passed in |
| Store.IngestNumbering | src/rag_mcp_server/core/db.py:24 | `embed_document` keeps ids increasing, from 1, below the AUTOINCREMENT counter |
| Store.InsertNumbering | src/rag_mcp_server/core/db.py:93-96 | the inserts keep the ids increasing, from 1, below the AUTOINCREMENT counter |
| Store.CountOf | src/rag_mcp_server/core/db.py:185-186 | `COUNT(*) ... WHERE filename = ?` is at most the number of rows |
| Store.Without | src/rag_mcp_server/core/db.py:195 | `DELETE ... WHERE filename = ?` removes as many rows as it counted |
| Store.WithoutMembers | src/rag_mcp_server/core/db.py:195 | the rows left are exactly the rows of the other files |
| Store.WithoutCounts | db.py:199 | no row of the file is left, and every other file keeps all its rows |
| Store.WithoutNone | src/rag_mcp_server/core/db.py:188-194 | with no row of the file, every row is kept |
| Store.WithoutNumbering | src/rag_mcp_server/core/db.py:195 | the rows left keep their order, so ids still increase within the same bounds |
| Store.DeleteOutcome | src/rag_mcp_server/core/db.py:185-203 | failure exactly when the file has no rows, with `Document not found` and the table unchanged; otherwise the reported count is the rows removed, only that file's rows go, and the counter stays |
| Store.FilenameSetMembers | db.py:171-172 | `COUNT(DISTINCT filename)` counts exactly the file names of the rows |
| Store.FilenameSetWithout | db.py:199 | after the delete the file name is gone from the distinct names and no other name is |
| Store.FileCountsTotal | db.py:168-182 | the per-file counts of `GROUP BY filename` add up to `COUNT(*)` |
| Store.FileCountsEntries | db.py:174 | each group's count is the number of rows with that file name |
| Store.FileCountsDistinct | db.py:174 | no file name appears in two groups |
| Store.FileCountsCover | db.py:174 | every file name of the table has a group |
| Store.FileCountsSize | db.py:171-175 | there are as many groups as distinct file names |
| Store.DeleteFromStats | db.py:199-206 | after deleting a file, the stats have no entry for it, the other entries keep their counts, and the total drops by the number deleted |
| Store.Hit | src/rag_mcp_server/core/db.py:127-141 | a hit is built only for a row whose blob decodes and whose computed score passes `>=`; it carries that score and the row's id, filename, content, chunk index, timestamp and decoded metadata; a score below the threshold, NaN included, gives no hit; conversely a score that passes gives a hit with that score, and raises only when the metadata does not decode |
| Store.Candidates | src/rag_mcp_server/core/db.py:126-141 | the loop keeps at most one result per row |
| Store.CandidatesStop | src/rag_mcp_server/core/db.py:126-141 | once a row raises, the search raises that error whatever rows follow |
| Store.CandidatesSound | src/rag_mcp_server/core/db.py:126-141 | every result is built from a row of the table |
| Store.CandidatesComplete | src/rag_mcp_server/core/db.py:132-141 | a search that returns has read every row without error and kept every row's hit |
| Store.KeepsPassingRows | src/rag_mcp_server/core/db.py:127-141 | a search that returns keeps, for every row whose blob decodes and whose score passes `>=`, a result with that row's id, file, content, chunk index and score |
| Store.CandidatesInScanOrder | src/rag_mcp_server/core/db.py:126 | results come in table-scan order: their ids increase |
| Store.SearchFilter | src/rag_mcp_server/core/db.py:132 | every result has a similarity that is at least `min_similarity` (so never NaN) and comes from a row |
| Store.SearchBound | src/rag_mcp_server/core/db.py:144 | with `top_k >= 0`, `min(top_k, #candidates)` results, so never more than `top_k`; an empty table gives `[]` |
| Store.SearchOrder | src/rag_mcp_server/core/db.py:143 | results are in non-increasing similarity, and equal similarities keep table-scan (id) order |
| Store.SearchTopK | src/rag_mcp_server/core/db.py:143-144 | the results are candidates, and a candidate cut by `top_k` scores no higher than any result returned |
| Store.IntTextInjective | src/rag_mcp_server/core/db.py:276-277 | two ids with the same decimal text are the same id |
| Store.FindRowFacts | src/rag_mcp_server/core/db.py:274-278 | the row found has the id asked for; none is found exactly when no row has it |
| Store.LookupFacts | src/rag_mcp_server/core/db.py:280-290 | the answer carries the row's columns, decoded metadata (`{}` when absent) and no similarity; None when no row has the id |
| Store.FindRowById | src/rag_mcp_server/core/db.py:274-278 | in a well-numbered table, looking up a row's id finds that row |
| Store.LookupById | src/rag_mcp_server/core/db.py:274-290 | looking up a row's id gives that row's chunk, or None when its metadata cannot be read |
| Store.LookupAsWrittenAgrees | src/rag_mcp_server/core/db.py:292-294 | the code as written differs from the intended lookup only where building the answer fails: there it raises |
| Store.LookupAsWrittenRaises | src/rag_mcp_server/core/db.py:292-294 | a row whose metadata is `[]` makes the code as written raise NameError where None is promised |
| Store.RAGDatabase.constructor | src/rag_mcp_server/core/db.py:17-39 | opening a database keeps its rows and its AUTOINCREMENT counter |
| Store.IngestSteps | src/rag_mcp_server/core/db.py:82-106 | the steps of `embed_document` (read, chunk, refuse a text without chunks, insert loop) give exactly what `Ingest` specifies; each failure returns the table it was given |
| Store.InsertSteps | src/rag_mcp_server/core/db.py:90-98 | the insert loop followed by the commit gives exactly what `InsertChunks` specifies: the new rows and the advanced counter when every chunk embeds, the unchanged table and the first error otherwise |
| Store.RAGDatabase.EmbedDocument | src/rag_mcp_server/core/db.py:79-112 | the answer and the new table are what `Ingest` specifies, and ids stay well numbered |
| Store.RAGDatabase.SearchSimilar | src/rag_mcp_server/core/db.py:114-144 | the result is what `Search` specifies, error cases included |
| Store.RAGDatabase.DeleteDocument | src/rag_mcp_server/core/db.py:180-203 | the answer and the new table are what `Delete` specifies, and ids stay well numbered |
| Store.RAGDatabase.GetStats | db.py:163-185 | `total_chunks` is the row count and `unique_files` is the number of groups; the group counts sum to the total, and each is its file's row count, distinct and covering |
| Store.RAGDatabase.GetStatsSummary | src/rag_mcp_server/core/db.py:172-178 | the summary is named `*`, has no chunk details, and reports the row count, which is the sum of the per-file counts |
| Store.RAGDatabase.GetDocumentInfo | src/rag_mcp_server/core/db.py:269-294 | the answer is a row with the requested id, with its columns and decoded metadata; None when no row has it |
| Answer.TopThree | src/rag_mcp_server/core/db.py:237 | `search_results[:3]` holds `min(3, n)` results |
| Answer.Shape | src/rag_mcp_server/core/db.py:220-263 | no results give confidence 0.0, no sources and no context; an answer keeps the question and the results, has its confidence in [0, 1] and its sources exactly the result file names; the only errors are a missing score and a negative confidence |
| Answer.ShapeRefuses | src/rag_mcp_server/core/db.py:237-262 | with hits: a missing score among the first three makes `sum` raise; otherwise a negative sum of the first three scores gives a confidence below 0, which `QuestionAnswer` (models.py:19) refuses; an answer comes exactly when neither happens |
| Answer.ConfidenceWithin | src/rag_mcp_server/core/db.py:237-238 | scores between `lo` and `hi` give a confidence between `min(lo, 1)` and `hi` |
| Answer.ConfidenceBetween | src/rag_mcp_server/core/db.py:237-262 | for ranked results, the confidence lies between the third-best score (capped at 1) and the best score |
| Answer.ShapeSucceeds | src/rag_mcp_server/core/db.py:257-263 | results that all score at least 0 always give an answer |
| Answer.AnswerOfSearch | src/rag_mcp_server/core/db.py:214-263 | the answer has at most `context_limit` context chunks, ranked, each passing the threshold; its confidence is at most the best similarity; no hits give the fixed empty answer |
| Answer.AnswerWhenSearchSucceeds | src/rag_mcp_server/core/db.py:214-263 | with a threshold of at least 0, an answer is given whenever the search succeeds |
| Answer.AskQuestionAsWrittenRaises | src/rag_mcp_server/core/db.py:214-218 | as written, `ask_question` raises NameError on every input, even where the intended method answers |
| Answer.ShapeAsWrittenRaises | src/rag_mcp_server/core/db.py:255 | one hit scoring 0.5: as written the answer raises; as intended it has that hit as context, its file as source and confidence 0.5 |
| Answer.ShapeUnconvertedRefuses | src/rag_mcp_server/core/db.py:256-262 | with `logger` defined but the hits passed to `context_chunks` unconverted, the answer succeeds exactly when there are no hits; wherever the intended `Shape` answers, this one raises the ValidationError, and it raises it exactly when the first three hits all have scores |
| Answer.ShapeUnconvertedExample | src/rag_mcp_server/core/db.py:260 | one hit scoring 0.5: the intended answer exists, and the unconverted hit is refused |

## Left out

- File reading: PyPDF2, python-docx and `open(...).read()` are foreign I/O. The model passes in `present` (for `Path.exists()`) and `read` (the three readers).
- The embedding model (`SentenceTransformer.encode`, and `feature_extraction` behind `get_Embedder` in src/rag_mcp_server/core/config.py) is a remote or foreign call. It is the parameter `embed`, which may fail. config.py is not part of this model.
- Cosine similarity is float32 arithmetic. It is the parameter `similarity`, which gives a number, NaN, or an error (for example, vectors of different lengths).
- SQLite plumbing is left out: connections, the schema and index DDL, column type affinity, and the commit and close calls. The table is a sequence of rows in rowid order with an AUTOINCREMENT counter. CURRENT_TIMESTAMP is the parameter `now`, read once per insert.
- Store.FindRow compares the requested id with the decimal text of each row id. SQLite's type affinity also matches texts such as `05` or `5.0` to id 5, and the model does not capture that.
- Order of `GROUP BY`: SQLite returns groups in index order. `FileCounts` lists them in the order the files first appear. Only count, distinctness and coverage are stated, and they do not depend on the order.
- Messages: the message texts of the packaged response models and the placeholder answer text of `ask_question` are left out. The `success` flags are left out too; the response constructors stand for them. So are the context-text string `ask_question` builds and then never uses, the `line/column` part of JSON decode errors, and the exact wording of Python's TypeError and pydantic's ValidationError.
- Answer.Shape: the program hands its `DocumentChunk` hits to `context_chunks: List[SearchResult]` unconverted, and pydantic 2 refuses them (see Findings, src/rag_mcp_server/core/db.py:260). `Shape` keeps the hits as they are, which is what converting each hit field for field into a `SearchResult` would give; the field types of `SearchResult` are not modelled.
- Answer.Confidence: the mean of the first three scores is computed exactly, while Python computes `sum(top_scores) / len(top_scores)` in float64 and rounds each step. The bounds proved about it (between the third-best score, capped at 1, and the best score) still hold for the program. Every score is `float(np.float32)`, so two or three times a score is exact in float64, and rounding is monotone. So the rounded sum stays between three times the smallest and three times the largest score, and the rounded quotient stays between those scores. Scores that are not float32 values, such as 0.1 three times, can give a float64 mean just above the best score.
- Answer.MinSimilarity: `similarity_threshold=None` is taken to mean the search's default threshold of 0; the code would hand None to `>=`.
- The order of `sources` (`list(set(...))`) is left open by Python. `sources` is a set.
- `await` and `async`: nothing in the core runs concurrently. The await on a plain list in `ask_question` is part of the broken call listed under Findings.
- JSON: floating-point numbers, NaN and Infinity, lone surrogate escapes and non-string dict keys are left out. So is `json.dumps` failing on a value it cannot serialise.
- Store.LookupFacts follows the packaged variant's pydantic rule: metadata must be a dict or null. `search_similar` follows db.py, which builds plain dicts and accepts any JSON value as metadata. The packaged search would also refuse non-dict metadata.
- Store.RAGDatabase.SearchSimilar sorts with the function `Ranking.SortDesc` on the list of results, not in place. Python's `list.sort` is in place; only its result is modelled.
- Paths: POSIX paths only. Windows drive letters and backslashes are not modelled. `suffix.lower()` is modelled as ASCII lowering; this gives the same answer for the four suffixes compared with, as the comment at `Paths.LowerAscii` explains.
- The MCP tool layer (server.py, rag_server.py, src/rag_mcp_server/server.py) and the pydantic models file are not part of this model. The record shapes of the models are the datatypes `Chunk`, `DocumentInfo`, `EmbedResponse`, `DeleteResponse` and `QuestionAnswer`.
- Logging is not modelled, except where the undefined `logger` makes the packaged code raise.

## Findings

| source | as written | input that shows it | evidently intended | confidence | as-written member | corrected member |
|---|---|---|---|---|---|---|
| src/rag_mcp_server/core/db.py:214-218 | `ask_question` calls `search_similar(question, limit=..., similarity_threshold=...)`, whose parameters are `top_k` and `min_similarity`, and awaits its plain-list result. The TypeError reaches the handler, whose `logger.error` raises NameError. | any call, e.g. `ask_question("q")` on an empty database | search with `top_k=context_limit` and `min_similarity=similarity_threshold`, then shape the answer | not executed | Answer.AskQuestionAsWritten (Answer.AskQuestionAsWrittenRaises) | Answer.AskQuestion (Answer.AnswerOfSearch) |
| src/rag_mcp_server/core/db.py:255 | `logger` is never defined or imported. `logger.info` raises NameError for every non-empty result list, and the handler at line 266 raises again. | one hit with similarity 0.5 from `notes.txt` | return the `QuestionAnswer` with confidence 0.5 and source `notes.txt` (with the hits converted, as the row for line 260 says) | not executed | Answer.ShapeAsWritten (Answer.ShapeAsWrittenRaises) | Answer.Shape (Answer.ConfidenceBetween) |
| src/rag_mcp_server/core/db.py:260 | `context_chunks=search_results` hands `DocumentChunk` instances to a field typed `List[SearchResult]` (models.py:17). The packaged server imports `fastmcp`, which runs on pydantic 2, and pydantic 2 accepts only a dict or a `SearchResult` there. So every non-empty answer raises a ValidationError, even once the two faults above are fixed. | one hit with similarity 0.5 from `notes.txt` | convert each hit into a `SearchResult` with the same fields and return the answer | not executed | Answer.ShapeUnconverted (Answer.ShapeUnconvertedRefuses, Answer.ShapeUnconvertedExample) | Answer.Shape (Answer.ShapeRefuses) |
| src/rag_mcp_server/core/db.py:292-294 | when building the `DocumentChunk` fails, the handler's `logger.error` raises NameError instead of returning None | a row with id 1 whose metadata is `[]`, queried with `"1"` | return None | not executed | Store.LookupAsWritten (Store.LookupAsWrittenRaises) | Store.Lookup (Store.LookupFacts) |
