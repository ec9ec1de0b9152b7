/** `ask_question` of the packaged `RAGDatabase`: search for context, then shape the answer
    from the hits (the answer text itself is a fixed placeholder and is not modelled).

    As written the method cannot succeed: it calls `search_similar` with keyword arguments
    that method does not have, and its handler, like its progress message, calls the
    undefined name `logger`. `AskQuestionAsWritten` and `ShapeAsWritten` model that code;
    `AskQuestion` and `Shape` model what it evidently means to do. Even with those fixed, the
    hits reach `context_chunks` unconverted, which `ShapeUnconverted` models. */
module Answer {
  import opened Wrappers
  import opened Slices
  import opened Ranking
  import opened Store

  /** `QuestionAnswer` without its placeholder `answer` text. `sources` is `list(set(...))`,
      whose order Python leaves open, so it is a set here. */
  datatype QuestionAnswer = QuestionAnswer(
    question: string, contextChunks: seq<Chunk>, sources: set<string>, confidence: real)

  /** `str(e)` for the TypeError of calling `search_similar` with `limit=`. */
  const UnexpectedLimit: string := "RAGDatabase.search_similar() got an unexpected keyword argument 'limit'"
  /** The gist of the TypeError `sum` raises on a hit without a similarity. */
  const NoScore: string := "unsupported operand type(s) for +: 'NoneType'"
  /** The gist of the ValidationError for `confidence: float = Field(ge=0.0, le=1.0)`. */
  const ConfidenceTooLow: string := "confidence: Input should be greater than or equal to 0"

  /** The answer to a question for which nothing was found. */
  function NothingFound(question: string): QuestionAnswer {
    QuestionAnswer(question, [], {}, 0.0)
  }

  /** `sum(top_scores)`. */
  function SumOf(s: seq<Chunk>): real {
    if s == [] then 0.0 else SimilarityKey(s[0]) + SumOf(s[1..])
  }

  /** `search_results[:3]`. */
  function TopThree(results: seq<Chunk>): (top: seq<Chunk>)
    ensures top == Prefix(results, 3)
    ensures |top| == Min(3, |results|)
  {
    PrefixLength(results, 3);
    results[..Min(3, |results|)]
  }

  /** `min(sum(top_scores) / len(top_scores), 1.0)`. */
  function Confidence(top: seq<Chunk>): real
    requires top != []
  {
    var mean := SumOf(top) / (|top| as real);
    if mean < 1.0 then mean else 1.0
  }

  /** The part of `ask_question` after the search, as it is meant to be: no hits give the
      fixed empty answer; otherwise the confidence is the mean similarity of the first three
      hits capped at 1, which `QuestionAnswer` refuses when it is negative. */
  function Shape(question: string, results: seq<Chunk>): (r: Result<QuestionAnswer>)
    ensures results == [] ==> r == Ok(NothingFound(question))
    ensures r.Ok? ==>
              r.value.question == question && r.value.contextChunks == results &&
              0.0 <= r.value.confidence <= 1.0
    ensures r.Ok? ==> forall f :: f in r.value.sources <==> exists c :: c in results && c.filename == f
    ensures r.Err? ==> r.error == NoScore || r.error == ConfidenceTooLow
  {
    if results == [] then Ok(NothingFound(question))
    else
      var top := TopThree(results);
      if exists c :: c in top && c.similarity.None? then Err(NoScore)
      else if Confidence(top) < 0.0 then Err(ConfidenceTooLow)
      else Ok(QuestionAnswer(question, results, set c | c in results :: c.filename, Confidence(top)))
  }

  /** The same part as written: a non-empty answer first passes a call on `logger`, whose
      NameError the handler meets with another call on `logger`. */
  function ShapeAsWritten(question: string, results: seq<Chunk>): Result<QuestionAnswer> {
    if results == [] then Ok(NothingFound(question))
    else Err(LoggerMissing)
  }

  /** The gist of the ValidationError `QuestionAnswer` raises when `context_chunks` is given
      `DocumentChunk` instances: pydantic 2 takes only a dict or a `SearchResult` for a field
      typed `SearchResult` unless the model reads from attributes, which this one does not. */
  const NotSearchResult: string :=
    "context_chunks.0: Input should be a valid dictionary or instance of SearchResult"

  /** The same part with `logger` defined but the hits handed to `context_chunks` as they are:
      the sum of the scores raises first, and otherwise building the answer refuses every
      non-empty list of hits. */
  function ShapeUnconverted(question: string, results: seq<Chunk>): Result<QuestionAnswer> {
    if results == [] then Ok(NothingFound(question))
    else if exists c :: c in TopThree(results) && c.similarity.None? then Err(NoScore)
    else Err(NotSearchResult)
  }

  /** The `except` clause as written: whatever was raised, `logger.error` raises a NameError. */
  function HandlerAsWritten<T>(r: Result<T>): Result<T> {
    if r.Err? then Err(LoggerMissing) else r
  }

  /** The call `search_similar(question, limit=..., similarity_threshold=...)` as written:
      the keywords are not parameters of `search_similar`, so the call raises before any
      search is made. */
  function SearchCallAsWritten(db: RAGDatabase, question: string, contextLimit: int,
                               threshold: Option<real>): Result<seq<Chunk>> {
    Err(UnexpectedLimit)
  }

  /** `ask_question(question, context_limit, similarity_threshold)` as written. */
  function AskQuestionAsWritten(db: RAGDatabase, question: string, contextLimit: int,
                                threshold: Option<real>): Result<QuestionAnswer> {
    HandlerAsWritten(
      match SearchCallAsWritten(db, question, contextLimit, threshold)
      case Err(e) => Err(e)
      case Ok(results) => ShapeAsWritten(question, results))
  }

  /** The threshold the search is meant to get: `similarity_threshold`, or the search's own
      default of 0 when it is None. */
  function MinSimilarity(threshold: Option<real>): Score {
    if threshold.Some? then Num(threshold.value) else Num(0.0)
  }

  /** `ask_question` as it is meant to be: search with `top_k=context_limit` and the
      threshold, then shape the answer; an error is re-raised as it is. */
  function AskQuestion(db: RAGDatabase, question: string, contextLimit: int, threshold: Option<real>,
                       embed: string -> Result<Vector>,
                       similarity: (Vector, Vector) -> Result<Score>): Result<QuestionAnswer>
    reads db
  {
    match Search(db.rows, question, contextLimit, MinSimilarity(threshold), embed, similarity)
    case Err(e) => Err(e)
    case Ok(results) => Shape(question, results)
  }

  /** `n` copies of `x` added up. */
  function Scaled(n: nat, x: real): real {
    if n == 0 then 0.0 else x + Scaled(n - 1, x)
  }

  lemma {:induction false} ScaledIsProduct(n: nat, x: real)
    ensures Scaled(n, x) == (n as real) * x
  {
    if n > 0 {
      ScaledIsProduct(n - 1, x);
      assert (n as real) * x == ((n - 1) as real) * x + x;
    }
  }

  /** Scores of at least `lo` add up to at least `|s|` times `lo`. */
  lemma {:induction false} SumAtLeast(s: seq<Chunk>, lo: real)
    requires forall c :: c in s ==> lo <= SimilarityKey(c)
    ensures Scaled(|s|, lo) <= SumOf(s)
  {
    if s != [] {
      assert forall c :: c in s[1..] ==> c in s;
      assert s[0] in s;
      SumAtLeast(s[1..], lo);
    }
  }

  /** Scores of at most `hi` add up to at most `|s|` times `hi`. */
  lemma {:induction false} SumAtMost(s: seq<Chunk>, hi: real)
    requires forall c :: c in s ==> SimilarityKey(c) <= hi
    ensures SumOf(s) <= Scaled(|s|, hi)
  {
    if s != [] {
      assert forall c :: c in s[1..] ==> c in s;
      assert s[0] in s;
      SumAtMost(s[1..], hi);
    }
  }

  lemma MeanBetween(sum: real, n: real, lo: real, hi: real)
    requires n > 0.0 && n * lo <= sum <= n * hi
    ensures lo <= sum / n <= hi
  {
    assert sum == (sum / n) * n;
  }

  /** Scores between `lo` and `hi` give a confidence between `lo`, capped at 1, and `hi`. */
  lemma ConfidenceWithin(top: seq<Chunk>, lo: real, hi: real)
    requires top != []
    requires forall c :: c in top ==> lo <= SimilarityKey(c) <= hi
    ensures (if lo < 1.0 then lo else 1.0) <= Confidence(top) <= hi
  {
    var n := |top|;
    SumAtLeast(top, lo);
    SumAtMost(top, hi);
    ScaledIsProduct(n, lo);
    ScaledIsProduct(n, hi);
    MeanBetween(SumOf(top), n as real, lo, hi);
  }

  /** The first three of ranked hits lie between the third best (or last) and the best. */
  lemma TopThreeBetween(results: seq<Chunk>)
    requires SortedDesc(results, SimilarityKey) && results != []
    ensures var top := TopThree(results);
            forall c :: c in top ==>
              SimilarityKey(top[|top| - 1]) <= SimilarityKey(c) <= SimilarityKey(top[0])
  {
    var top := TopThree(results);
    var n := |top|;
    forall c | c in top ensures SimilarityKey(top[n - 1]) <= SimilarityKey(c) <= SimilarityKey(top[0]) {
      var i :| 0 <= i < n && top[i] == c;
      assert top[i] == results[i] && top[0] == results[0] && top[n - 1] == results[n - 1];
    }
  }

  lemma ShapeConfidence(question: string, results: seq<Chunk>)
    requires results != [] && Shape(question, results).Ok?
    ensures Shape(question, results).value.confidence == Confidence(TopThree(results))
  {
  }

  /** Ranked hits: the confidence lies between the third best score (or the last, with fewer
      hits), capped at 1, and the best score. */
  lemma ConfidenceBetween(question: string, results: seq<Chunk>)
    requires SortedDesc(results, SimilarityKey) && results != []
    requires Shape(question, results).Ok?
    ensures var c := Shape(question, results).value.confidence;
            var third := SimilarityKey(results[Min(3, |results|) - 1]);
            (if third < 1.0 then third else 1.0) <= c <= SimilarityKey(results[0])
  {
    var top := TopThree(results);
    var n := |top|;
    ShapeConfidence(question, results);
    TopThreeBetween(results);
    ConfidenceWithin(top, SimilarityKey(top[n - 1]), SimilarityKey(top[0]));
    assert top[n - 1] == results[Min(3, |results|) - 1] && top[0] == results[0];
  }

  /** A mean has the sign of its sum. */
  lemma MeanSign(sum: real, n: real)
    requires n > 0.0
    ensures sum / n < 0.0 <==> sum < 0.0
  {
    assert sum == (sum / n) * n;
  }

  /** When the shaping is refused: a hit among the first three without a similarity makes
      `sum` raise, and otherwise a negative sum of the first three scores gives a negative
      confidence, which `QuestionAnswer` rejects. An answer comes exactly when neither
      happens. */
  lemma ShapeRefuses(question: string, results: seq<Chunk>)
    requires results != []
    ensures var top := TopThree(results);
            (exists c :: c in top && c.similarity.None?) ==> Shape(question, results) == Err(NoScore)
    ensures var top := TopThree(results);
            (forall c :: c in top ==> c.similarity.Some?) && SumOf(top) < 0.0 ==>
              Shape(question, results) == Err(ConfidenceTooLow)
    ensures var top := TopThree(results);
            Shape(question, results).Ok? <==>
              (forall c :: c in top ==> c.similarity.Some?) && SumOf(top) >= 0.0
  {
    var top := TopThree(results);
    MeanSign(SumOf(top), |top| as real);
  }

  /** Hits that all score at least 0 always give an answer. */
  lemma ShapeSucceeds(question: string, results: seq<Chunk>)
    requires forall c :: c in results ==> c.similarity.Some? && c.similarity.value >= 0.0
    ensures Shape(question, results).Ok?
  {
    if results != [] {
      var top := TopThree(results);
      assert forall c :: c in top ==> c in results;
      SumAtLeast(top, 0.0);
      ScaledIsProduct(|top|, 0.0);
    }
  }

  /** What `ask_question` answers: at most `context_limit` context chunks, each from a row of
      the table and reaching the threshold, the best first; the confidence is at most the
      best similarity; every source is the file of a context chunk. */
  lemma AnswerOfSearch(db: RAGDatabase, question: string, contextLimit: int, threshold: Option<real>,
                       embed: string -> Result<Vector>,
                       similarity: (Vector, Vector) -> Result<Score>)
    requires AskQuestion(db, question, contextLimit, threshold, embed, similarity).Ok?
    ensures var a := AskQuestion(db, question, contextLimit, threshold, embed, similarity).value;
            a.question == question &&
            (contextLimit >= 0 ==> |a.contextChunks| <= contextLimit) &&
            SortedDesc(a.contextChunks, SimilarityKey) &&
            (forall c :: c in a.contextChunks ==>
               c.similarity.Some? && AtLeast(Num(c.similarity.value), MinSimilarity(threshold))) &&
            (a.contextChunks != [] ==> a.confidence <= SimilarityKey(a.contextChunks[0])) &&
            (a.contextChunks == [] ==> a == NothingFound(question)) &&
            0.0 <= a.confidence <= 1.0
  {
    var min := MinSimilarity(threshold);
    var hits := Search(db.rows, question, contextLimit, min, embed, similarity).value;
    SearchFilter(db.rows, question, contextLimit, min, embed, similarity);
    SearchBound(db.rows, question, contextLimit, min, embed, similarity);
    SearchOrder(db.rows, question, contextLimit, min, embed, similarity);
    if hits != [] {
      ConfidenceBetween(question, hits);
    }
  }

  /** With a threshold of at least 0, `ask_question` answers whenever the search does. */
  lemma AnswerWhenSearchSucceeds(db: RAGDatabase, question: string, contextLimit: int, threshold: real,
                                 embed: string -> Result<Vector>,
                                 similarity: (Vector, Vector) -> Result<Score>)
    requires threshold >= 0.0
    requires Search(db.rows, question, contextLimit, Num(threshold), embed, similarity).Ok?
    ensures AskQuestion(db, question, contextLimit, Some(threshold), embed, similarity).Ok?
  {
    var hits := Search(db.rows, question, contextLimit, Num(threshold), embed, similarity).value;
    SearchFilter(db.rows, question, contextLimit, Num(threshold), embed, similarity);
    ShapeSucceeds(question, hits);
  }

  /** As written, `ask_question` raises a NameError on every input, even where nothing is
      found and the intended method answers. */
  lemma AskQuestionAsWrittenRaises(db: RAGDatabase, question: string, contextLimit: int,
                                   threshold: Option<real>)
    ensures AskQuestionAsWritten(db, question, contextLimit, threshold) == Err(LoggerMissing)
    ensures Shape(question, []) == Ok(NothingFound(question))
  {
  }

  /** One hit scoring 0.5: as written the answer raises a NameError; as intended it has that
      hit as context, its file as source and confidence 0.5. */
  lemma ShapeAsWrittenRaises()
    ensures var hit := Chunk(1, "notes.txt", "text", 0, Json.Obj([]), "2024-01-01 00:00:00", Some(0.5));
            ShapeAsWritten("q", [hit]) == Err(LoggerMissing) &&
            Shape("q", [hit]) == Ok(QuestionAnswer("q", [hit], {"notes.txt"}, 0.5))
  {
    var hit := Chunk(1, "notes.txt", "text", 0, Json.Obj([]), "2024-01-01 00:00:00", Some(0.5));
    assert TopThree([hit]) == [hit];
    assert SumOf([hit]) == 0.5;
    assert (set c | c in [hit] :: c.filename) == {"notes.txt"};
  }

  /** Even with `logger` defined, hits that are not converted to `SearchResult` make every
      non-empty answer fail: where the intended `Shape` answers, the unconverted one raises
      the ValidationError, and it answers only when nothing was found. */
  lemma ShapeUnconvertedRefuses(question: string, results: seq<Chunk>)
    ensures ShapeUnconverted(question, results).Ok? <==> results == []
    ensures Shape(question, results).Ok? && results != [] ==>
              ShapeUnconverted(question, results) == Err(NotSearchResult)
    ensures results != [] ==>
              (ShapeUnconverted(question, results) == Err(NotSearchResult) <==>
               forall c :: c in TopThree(results) ==> c.similarity.Some?)
  {
  }

  /** One hit scoring 0.5: the intended answer exists, and the unconverted hit is refused. */
  lemma ShapeUnconvertedExample()
    ensures var hit := Chunk(1, "notes.txt", "text", 0, Json.Obj([]), "2024-01-01 00:00:00", Some(0.5));
            Shape("q", [hit]).Ok? && ShapeUnconverted("q", [hit]) == Err(NotSearchResult)
  {
    ShapeAsWrittenRaises();
  }
}
