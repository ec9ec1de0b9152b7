/** `RAGDatabase.chunk_text`: split a text on whitespace and cut the words into windows
    of `chunk_size` words whose starts advance by `chunk_size - overlap`, each window joined
    with single spaces. Both variants of the class carry the same code. */
module Chunker {
  import opened Wrappers
  import opened Text
  import opened Slices

  /** The defaults `embed_document` uses when it calls `chunk_text(text)`. */
  const DefaultChunkSize: int := 512
  const DefaultOverlap: int := 50

  /** `str(e)` for the ValueError that `range()` raises on a step of zero. */
  const ZeroStepError: string := "range() arg 3 must not be zero"

  /** The chunks that the iterations of `for i in range(0, len(words), step)` starting at
      word index `i` or later append. The test `if chunk.strip():` passes exactly when the
      chunk has a non-whitespace character (see `Text.Strip`). */
  function Windows(words: seq<string>, size: int, step: int, i: nat): seq<string>
    requires step > 0
    decreases |words| - i
  {
    if i >= |words| then []
    else
      var chunk := Join(Slice(words, i, i + size));
      (if HasText(chunk) then [chunk] else []) + Windows(words, size, step, i + step)
  }

  /** What `chunk_text(text, chunk_size, overlap)` returns, or the error it raises. A step of
      zero makes `range()` raise; a negative step makes the range empty, because it starts
      at 0 and counts down towards `len(words) >= 0`. */
  function Chunks(text: string, chunkSize: int, overlap: int): (r: Result<seq<string>>)
    ensures r.Err? <==> chunkSize == overlap
    ensures overlap > chunkSize ==> r == Ok([])
  {
    var step := chunkSize - overlap;
    if step == 0 then Err(ZeroStepError)
    else if step < 0 then Ok([])
    else Ok(Windows(Words(text), chunkSize, step, 0))
  }

  /** `chunk_text`: split, then run the loop when the step is positive. */
  method ChunkText(text: string, chunkSize: int, overlap: int) returns (r: Result<seq<string>>)
    ensures r == Chunks(text, chunkSize, overlap)
  {
    var words := Words(text);
    var step := chunkSize - overlap;
    if step == 0 {
      return Err(ZeroStepError);
    }
    var chunks: seq<string> := [];
    if step > 0 {
      chunks := WindowLoop(words, chunkSize, step);
    }
    return Ok(chunks);
  }

  /** The loop `for i in range(0, len(words), step)` of `chunk_text`. */
  method WindowLoop(words: seq<string>, size: int, step: int) returns (chunks: seq<string>)
    requires step > 0
    ensures chunks == Windows(words, size, step, 0)
  {
    ghost var all := Windows(words, size, step, 0);
    chunks := [];
    var i: nat := 0;
    while i < |words|
      invariant chunks + Windows(words, size, step, i) == all
      decreases |words| - i
    {
      var chunk := Join(Slice(words, i, i + size));
      var keep := IsStripNonEmpty(chunk);
      if keep {
        LoopKeep(words, size, step, i, chunks, all);
        chunks := chunks + [chunk];
      } else {
        LoopSkip(words, size, step, i, chunks, all);
      }
      i := i + step;
    }
    assert chunks + [] == chunks;
  }

  /** An iteration that appends its chunk keeps `chunks + Windows(.., i)` unchanged. */
  lemma LoopKeep(words: seq<string>, size: int, step: int, i: nat, chunks: seq<string>, all: seq<string>)
    requires step > 0 && i < |words| && HasText(Join(Slice(words, i, i + size)))
    requires chunks + Windows(words, size, step, i) == all
    ensures chunks + [Join(Slice(words, i, i + size))] + Windows(words, size, step, i + step) == all
  {
    var chunk := Join(Slice(words, i, i + size));
    var rest := Windows(words, size, step, i + step);
    assert Windows(words, size, step, i) == [chunk] + rest;
    assert chunks + [chunk] + rest == chunks + ([chunk] + rest);
  }

  /** So does an iteration that skips a blank chunk. */
  lemma LoopSkip(words: seq<string>, size: int, step: int, i: nat, chunks: seq<string>, all: seq<string>)
    requires step > 0 && i < |words| && !HasText(Join(Slice(words, i, i + size)))
    requires chunks + Windows(words, size, step, i) == all
    ensures chunks + Windows(words, size, step, i + step) == all
  {
    assert Windows(words, size, step, i) == Windows(words, size, step, i + step);
  }

  // ---------------------------------------------------------------------------------------
  // The shape of the windows for a positive chunk size and a positive step.

  /** With a positive size, the window starting at a word index inside the list is not
      blank, so `if chunk.strip():` keeps it. */
  lemma WindowHasText(words: seq<string>, size: int, i: nat)
    requires AllWords(words) && size > 0 && i < |words|
    ensures HasText(Join(words[i..Min(i + size, |words|)]))
  {
    var ws := words[i..Min(i + size, |words|)];
    assert AllWords(ws) by {
      forall k | 0 <= k < |ws| ensures IsWord(ws[k]) { assert ws[k] == words[i + k]; }
    }
    JoinHasText(ws);
  }

  /** Hence every iteration with a positive size appends exactly one chunk. */
  lemma WindowsStep(words: seq<string>, size: int, step: int, i: nat)
    requires AllWords(words) && size > 0 && step > 0 && i < |words|
    ensures Windows(words, size, step, i)
            == [Join(Cut(words, size, i))] + Windows(words, size, step, i + step)
  {
    WindowHasText(words, size, i);
    SliceInside(words, i, i + size);
  }

  /** `k * step`, built up by repeated addition so that the lemmas about windows stay in
      linear arithmetic. */
  function Offset(k: nat, step: nat): nat {
    if k == 0 then 0 else Offset(k - 1, step) + step
  }

  /** The number of starts `0, step, 2 * step, ...` below `n`: `ceil(n / step)`. */
  function StartCount(n: int, step: int): nat
    requires step > 0
    decreases n
  {
    if n <= 0 then 0 else 1 + StartCount(n - step, step)
  }

  lemma {:induction false} OffsetIsProduct(k: nat, step: nat)
    ensures Offset(k, step) == k * step
  {
    if k > 0 {
      OffsetIsProduct(k - 1, step);
      assert (k - 1) * step + step == k * step;
    }
  }

  lemma StartCountIsCeiling(n: nat, step: int)
    requires step > 0
    ensures StartCount(n, step) == (n + step - 1) / step
  {
    var c := StartCount(n, step);
    StartCountBracket(n, step);
    OffsetIsProduct(c, step);
    if c == 0 {
      DivOfBracket(n + step - 1, step, 0);
    } else {
      OffsetIsProduct(c - 1, step);
      assert (c - 1) * step + step == c * step;
      DivOfBracket(n + step - 1, step, c);
    }
  }

  /** The last start below `n` is below `n`, and the next one is not. */
  lemma {:induction false} StartCountBracket(n: int, step: int)
    requires step > 0
    ensures var c := StartCount(n, step);
            (n <= 0 ==> c == 0) && (n > 0 ==> c > 0 && Offset(c - 1, step) < n <= Offset(c, step))
    decreases n
  {
    if n > 0 {
      StartCountBracket(n - step, step);
      var c := StartCount(n, step);
      if c > 1 { OffsetShift(c - 1, step); }
      OffsetShift(c, step);
    }
  }

  /** If `k * d <= x < k * d + d` then `x / d == k`. */
  lemma DivOfBracket(x: int, d: int, k: int)
    requires d > 0 && k * d <= x < k * d + d
    ensures x / d == k
  {
    var q, r := x / d, x % d;
    assert x == q * d + r && 0 <= r < d;
    assert (q - k) * d == q * d - k * d;
    MulSign(q - k, d);
  }

  lemma MulSign(t: int, d: int)
    requires d > 0
    ensures t >= 1 ==> t * d >= d
    ensures t <= -1 ==> t * d <= -d
  {
    if t >= 1 { assert t * d == (t - 1) * d + d; }
    if t <= -1 { assert t * d == (t + 1) * d - d; }
  }

  /** The words of the window starting at word index `i`. */
  function Cut(words: seq<string>, size: int, i: nat): seq<string>
    requires size > 0 && i < |words|
  {
    words[i..Min(i + size, |words|)]
  }

  /** The windows without the `strip()` filter: one joined chunk per start. */
  function Plain(words: seq<string>, size: int, step: int, i: nat): seq<string>
    requires size > 0 && step > 0
    decreases |words| - i
  {
    if i >= |words| then [] else [Join(Cut(words, size, i))] + Plain(words, size, step, i + step)
  }

  /** With a positive size the filter removes nothing. */
  lemma {:induction false} WindowsArePlain(words: seq<string>, size: int, step: int, i: nat)
    requires AllWords(words) && size > 0 && step > 0
    ensures Windows(words, size, step, i) == Plain(words, size, step, i)
    decreases |words| - i
  {
    if i < |words| {
      WindowsArePlain(words, size, step, i + step);
      WindowsArePlainStep(words, size, step, i);
    }
  }

  lemma WindowsArePlainStep(words: seq<string>, size: int, step: int, i: nat)
    requires AllWords(words) && size > 0 && step > 0 && i < |words|
    requires Windows(words, size, step, i + step) == Plain(words, size, step, i + step)
    ensures Windows(words, size, step, i) == Plain(words, size, step, i)
  {
    WindowsStep(words, size, step, i);
    PlainLength(words, size, step, i);
  }

  lemma PlainLength(words: seq<string>, size: int, step: int, i: nat)
    requires size > 0 && step > 0 && i < |words|
    ensures Plain(words, size, step, i) == [Join(Cut(words, size, i))] + Plain(words, size, step, i + step)
    ensures |Plain(words, size, step, i)| == 1 + |Plain(words, size, step, i + step)|
    ensures Plain(words, size, step, i)[0] == Join(Cut(words, size, i))
    ensures Plain(words, size, step, i)[1..] == Plain(words, size, step, i + step)
  {
  }

  /** The starts from index `i` on number `ceil((n - i) / step)`. */
  lemma {:induction false} PlainCount(words: seq<string>, size: int, step: int, i: nat)
    requires size > 0 && step > 0
    ensures |Plain(words, size, step, i)| == StartCount(|words| - i, step)
    decreases |words| - i
  {
    if i < |words| {
      PlainCount(words, size, step, i + step);
      PlainLength(words, size, step, i);
    }
  }

  /** Window `k` from index `i` holds the words from `i + k * step` up to
      `i + k * step + size` (or the end of the list). */
  lemma {:induction false} PlainAt(words: seq<string>, size: int, step: int, i: nat, k: nat)
    requires size > 0 && step > 0
    requires k < |Plain(words, size, step, i)|
    ensures i + Offset(k, step) < |words|
    ensures Plain(words, size, step, i)[k] == Join(Cut(words, size, i + Offset(k, step)))
    decreases k
  {
    PlainLength(words, size, step, i);
    if k > 0 {
      assert Plain(words, size, step, i)[k] == Plain(words, size, step, i + step)[k - 1];
      PlainAt(words, size, step, i + step, k - 1);
      OffsetShift(k, step);
    }
  }

  lemma {:induction false} OffsetShift(k: nat, step: nat)
    requires k > 0
    ensures step + Offset(k - 1, step) == Offset(k, step)
  {
  }

  /** Every word index `j >= i` lies in the first `step` words of some window from `i` on. */
  lemma {:induction false} PlainCovering(words: seq<string>, size: int, step: int, i: nat, j: nat)
    returns (k: nat)
    requires size > 0 && step > 0
    requires i <= j < |words|
    ensures k < |Plain(words, size, step, i)|
    ensures i + Offset(k, step) <= j < i + Offset(k, step) + step
    decreases |words| - i
  {
    PlainLength(words, size, step, i);
    if j < i + step {
      k := 0;
    } else {
      var k' := PlainCovering(words, size, step, i + step, j);
      k := k' + 1;
      OffsetShift(k, step);
    }
  }

  /** The first `step` words of each chunk, concatenated. When consecutive windows overlap
      (`step <= size`), these pieces are what remains after the overlap is removed. */
  function Reassemble(chunks: seq<string>, step: nat): seq<string> {
    if chunks == [] then []
    else
      var ws := Words(chunks[0]);
      ws[..Min(step, |ws|)] + Reassemble(chunks[1..], step)
  }

  lemma ReassembleHead(chunks: seq<string>, step: nat)
    requires chunks != []
    ensures var ws := Words(chunks[0]);
            Reassemble(chunks, step) == ws[..Min(step, |ws|)] + Reassemble(chunks[1..], step)
  {
  }

  /** Splitting a window gives its words back. */
  lemma WordsOfCut(words: seq<string>, size: int, i: nat)
    requires AllWords(words) && size > 0 && i < |words|
    ensures Words(Join(Cut(words, size, i))) == Cut(words, size, i)
  {
    var ws := Cut(words, size, i);
    assert AllWords(ws) by {
      forall k | 0 <= k < |ws| ensures IsWord(ws[k]) { assert ws[k] == words[i + k]; }
    }
    WordsOfJoin(ws);
  }

  lemma {:induction false} PlainReassemble(words: seq<string>, size: int, step: int, i: nat)
    requires AllWords(words) && 0 < step <= size
    ensures Reassemble(Plain(words, size, step, i), step) == words[Min(i, |words|)..]
    decreases |words| - i
  {
    if i < |words| {
      PlainReassemble(words, size, step, i + step);
      PlainReassembleFrom(words, size, step, i);
    }
  }

  lemma SplitAt<T>(s: seq<T>, i: nat, m: nat)
    requires i <= m <= |s|
    ensures s[i..] == s[i..m] + s[m..]
  {
  }

  lemma PlainReassembleFrom(words: seq<string>, size: int, step: int, i: nat)
    requires AllWords(words) && 0 < step <= size && i < |words|
    requires Reassemble(Plain(words, size, step, i + step), step) == words[Min(i + step, |words|)..]
    ensures Reassemble(Plain(words, size, step, i), step) == words[i..]
  {
    PlainReassembleStep(words, size, step, i);
    SplitAt(words, i, Min(i + step, |words|));
  }

  /** The first window contributes its first `step` words. */
  lemma PlainReassembleStep(words: seq<string>, size: int, step: int, i: nat)
    requires AllWords(words) && 0 < step <= size && i < |words|
    ensures Reassemble(Plain(words, size, step, i), step)
            == words[i..Min(i + step, |words|)] + Reassemble(Plain(words, size, step, i + step), step)
  {
    var p, ws := Plain(words, size, step, i), Cut(words, size, i);
    PlainLength(words, size, step, i);
    assert Words(p[0]) == ws by { WordsOfCut(words, size, i); }
    assert ws[..Min(step, |ws|)] == words[i..Min(i + step, |words|)];
    ReassembleHead(p, step);
  }

  // ---------------------------------------------------------------------------------------
  // What `chunk_text` returns, stated on the text.

  /** With `0 < chunk_size` and `overlap < chunk_size` the chunks are the unfiltered windows
      over the text's words. */
  lemma ChunksArePlain(text: string, chunkSize: int, overlap: int, chunks: seq<string>)
    requires 0 < chunkSize && overlap < chunkSize
    requires Chunks(text, chunkSize, overlap) == Ok(chunks)
    ensures AllWords(Words(text))
    ensures chunks == Plain(Words(text), chunkSize, chunkSize - overlap, 0)
  {
    WindowsArePlain(Words(text), chunkSize, chunkSize - overlap, 0);
  }

  /** With `0 < chunk_size` and `overlap < chunk_size`, `chunk_text` returns exactly
      `ceil(n / s)` chunks for `n` words and stride `s = chunk_size - overlap`. */
  lemma ChunkCount(text: string, chunkSize: int, overlap: int, chunks: seq<string>)
    requires 0 < chunkSize && overlap < chunkSize
    requires Chunks(text, chunkSize, overlap) == Ok(chunks)
    ensures var n, s := |Words(text)|, chunkSize - overlap;
            |chunks| == (n + s - 1) / s
  {
    ChunkStarts(text, chunkSize, overlap, chunks);
    StartCountIsCeiling(|Words(text)|, chunkSize - overlap);
  }

  /** One chunk per start `0, s, 2 * s, ...` below the number of words. */
  lemma ChunkStarts(text: string, chunkSize: int, overlap: int, chunks: seq<string>)
    requires 0 < chunkSize && overlap < chunkSize
    requires Chunks(text, chunkSize, overlap) == Ok(chunks)
    ensures |chunks| == StartCount(|Words(text)|, chunkSize - overlap)
  {
    ChunksArePlain(text, chunkSize, overlap, chunks);
    PlainCount(Words(text), chunkSize, chunkSize - overlap, 0);
  }

  /** Chunk `k` is the words from `Offset(k, s)` (which is `k * s`, see `OffsetIsProduct`) up
      to `chunk_size` words further (or the end of the text) joined with single spaces:
      splitting it gives those words back, at least one and at most `chunk_size` of them. */
  lemma ChunkContents(text: string, chunkSize: int, overlap: int, chunks: seq<string>, k: nat)
    requires 0 < chunkSize && overlap < chunkSize
    requires Chunks(text, chunkSize, overlap) == Ok(chunks) && k < |chunks|
    ensures var words, p := Words(text), Offset(k, chunkSize - overlap);
            p < |words|
            && chunks[k] == Join(words[p..Min(p + chunkSize, |words|)])
            && Words(chunks[k]) == words[p..Min(p + chunkSize, |words|)]
            && 1 <= |Words(chunks[k])| <= chunkSize
  {
    ChunksArePlain(text, chunkSize, overlap, chunks);
    PlainContents(Words(text), chunkSize, overlap, chunks, k);
  }

  /** Window `k` from the start of the list, and what splitting it gives; the windows of
      `chunk_text` over a list of words, for stride `chunk_size - overlap`. */
  lemma PlainContents(words: seq<string>, chunkSize: int, overlap: int, chunks: seq<string>, k: nat)
    requires AllWords(words) && 0 < chunkSize && overlap < chunkSize
    requires chunks == Plain(words, chunkSize, chunkSize - overlap, 0) && k < |chunks|
    ensures var p := Offset(k, chunkSize - overlap);
            p < |words|
            && chunks[k] == Join(words[p..Min(p + chunkSize, |words|)])
            && Words(chunks[k]) == words[p..Min(p + chunkSize, |words|)]
            && 1 <= |Words(chunks[k])| <= chunkSize
  {
    var p := Offset(k, chunkSize - overlap);
    PlainAt(words, chunkSize, chunkSize - overlap, 0, k);
    var cut := Cut(words, chunkSize, p);
    assert chunks[k] == Join(cut);
    WordsOfCut(words, chunkSize, p);
    assert Words(chunks[k]) == cut;
    assert 1 <= |cut| <= chunkSize;
  }

  /** With `0 <= overlap < chunk_size` no word is lost: every word of the text is word
      `j - Offset(k, s)` of some chunk `k`. */
  lemma ChunkCoverage(text: string, chunkSize: int, overlap: int, chunks: seq<string>, j: nat)
    requires 0 <= overlap < chunkSize && j < |Words(text)|
    requires Chunks(text, chunkSize, overlap) == Ok(chunks)
    ensures var s := chunkSize - overlap;
            exists k :: 0 <= k < |chunks| && Offset(k, s) <= j < Offset(k, s) + |Words(chunks[k])|
                        && Words(chunks[k])[j - Offset(k, s)] == Words(text)[j]
  {
    ChunksArePlain(text, chunkSize, overlap, chunks);
    var k := PlainOf(Words(text), chunkSize, overlap, chunks, j);
  }

  /** The window whose first `step` words hold word `j`. */
  lemma PlainOf(words: seq<string>, chunkSize: int, overlap: int, chunks: seq<string>, j: nat)
    returns (k: nat)
    requires AllWords(words) && 0 <= overlap < chunkSize && j < |words|
    requires chunks == Plain(words, chunkSize, chunkSize - overlap, 0)
    ensures k < |chunks|
    ensures var p := Offset(k, chunkSize - overlap);
            p <= j < p + |Words(chunks[k])| && Words(chunks[k])[j - p] == words[j]
  {
    k := PlainCovering(words, chunkSize, chunkSize - overlap, 0, j);
    PlainContents(words, chunkSize, overlap, chunks, k);
    var p := Offset(k, chunkSize - overlap);
    var ws := words[p..Min(p + chunkSize, |words|)];
    assert p <= j < p + |ws| && ws[j - p] == words[j];
  }

  /** With `0 <= overlap < chunk_size`, dropping the overlap from each chunk and
      concatenating gives back the text's words exactly. */
  lemma ChunksReassemble(text: string, chunkSize: int, overlap: int, chunks: seq<string>)
    requires 0 <= overlap < chunkSize
    requires Chunks(text, chunkSize, overlap) == Ok(chunks)
    ensures Reassemble(chunks, chunkSize - overlap) == Words(text)
  {
    ChunksArePlain(text, chunkSize, overlap, chunks);
    PlainReassemble(Words(text), chunkSize, chunkSize - overlap, 0);
  }

  /** With `0 < chunk_size` and `overlap < chunk_size` there are no chunks exactly when the
      text is blank, and exactly one chunk when there are between 1 and `s` words. */
  lemma ChunksEmptyOrSingle(text: string, chunkSize: int, overlap: int, chunks: seq<string>)
    requires 0 < chunkSize && overlap < chunkSize
    requires Chunks(text, chunkSize, overlap) == Ok(chunks)
    ensures chunks == [] <==> Blank(text)
    ensures |chunks| == 1 <==> 0 < |Words(text)| <= chunkSize - overlap
  {
    var words, s := Words(text), chunkSize - overlap;
    ChunksArePlain(text, chunkSize, overlap, chunks);
    PlainCount(words, chunkSize, s, 0);
  }

  /** The defaults (512 words, overlap 50, stride 462): 480 and 600 words give two chunks,
      1000 words give three, and 1 to 462 words give one. */
  lemma DefaultChunking(text: string, chunks: seq<string>)
    requires Chunks(text, DefaultChunkSize, DefaultOverlap) == Ok(chunks)
    ensures var n := |Words(text)|;
            (n == 480 || n == 600 ==> |chunks| == 2) && (n == 1000 ==> |chunks| == 3)
            && (0 < n <= 462 ==> |chunks| == 1)
  {
    ChunkCount(text, DefaultChunkSize, DefaultOverlap, chunks);
  }
}
