/** The three Python string operations the chunker is built from: `str.split()` with no
    separator, `" ".join(...)` and `str.strip()`. */
module Text {

  /** The code point ranges, inclusive, of the characters Python's `str.isspace()` accepts,
      which are the characters `split()` and `strip()` treat as whitespace: tab to carriage
      return, the four information separators, space, NEL, no-break space, the Ogham space
      mark, the Unicode space separators U+2000 to U+200A, the line and paragraph
      separators, the narrow no-break space, the medium mathematical space and the
      ideographic space. */
  const SpaceRanges: seq<(int, int)> :=
    [(0x09, 0x0D), (0x1C, 0x20), (0x85, 0x85), (0xA0, 0xA0), (0x1680, 0x1680),
     (0x2000, 0x200A), (0x2028, 0x2029), (0x202F, 0x202F), (0x205F, 0x205F),
     (0x3000, 0x3000)]

  predicate InRanges(n: int, rs: seq<(int, int)>) {
    rs != [] && ((rs[0].0 <= n <= rs[0].1) || InRanges(n, rs[1..]))
  }

  /** `str.isspace()` for a single character. */
  predicate IsSpace(c: char) {
    InRanges(c as int, SpaceRanges)
  }

  /** Every character is whitespace (this includes the empty string). */
  predicate Blank(s: string) {
    forall i :: 0 <= i < |s| ==> IsSpace(s[i])
  }

  /** Some character is not whitespace; the recursive form of `!Blank(s)`. */
  predicate HasText(s: string) {
    s != [] && (!IsSpace(s[0]) || HasText(s[1..]))
  }

  /** What `split()` can produce: a non-empty run of non-whitespace characters. */
  predicate IsWord(w: string) {
    |w| > 0 && forall i :: 0 <= i < |w| ==> !IsSpace(w[i])
  }

  predicate AllWords(ws: seq<string>) {
    forall i :: 0 <= i < |ws| ==> IsWord(ws[i])
  }

  /** The length of the leading run of non-whitespace characters of `s`. */
  function WordEnd(s: string): (k: nat)
    ensures k <= |s|
    ensures forall i :: 0 <= i < k ==> !IsSpace(s[i])
    ensures k < |s| ==> IsSpace(s[k])
  {
    if s == [] || IsSpace(s[0]) then 0 else 1 + WordEnd(s[1..])
  }

  /** `s.split()`: the maximal runs of non-whitespace characters of `s`, in order. */
  function Words(s: string): (ws: seq<string>)
    ensures AllWords(ws)
    ensures ws != [] <==> HasText(s)
    decreases |s|
  {
    if s == [] then []
    else if IsSpace(s[0]) then
      Words(s[1..])
    else
      var k := WordEnd(s);
      [s[..k]] + Words(s[k..])
  }

  /** `" ".join(ws)`. */
  function Join(ws: seq<string>): string {
    if |ws| == 0 then "" else if |ws| == 1 then ws[0] else ws[0] + " " + Join(ws[1..])
  }

  /** A leading whitespace character does not change blankness. */
  lemma BlankTail(s: string)
    requires s != [] && IsSpace(s[0])
    ensures Blank(s) <==> Blank(s[1..])
  {
    if Blank(s[1..]) {
      forall i | 0 <= i < |s| ensures IsSpace(s[i]) {
        if i > 0 { assert s[i] == s[1..][i - 1]; }
      }
    }
  }

  /** `s` with its leading whitespace removed; what is removed is whitespace. */
  function TrimStart(s: string): (r: string)
    ensures |r| <= |s| && r == s[|s| - |r|..]
    ensures r == [] || !IsSpace(r[0])
    ensures HasText(r) <==> HasText(s)
  {
    if s != [] && IsSpace(s[0]) then TrimStart(s[1..]) else s
  }

  /** `s` with its trailing whitespace removed; it is empty exactly when `s` is blank. */
  function TrimEnd(s: string): (r: string)
    ensures |r| <= |s| && r == s[..|r|]
    ensures r == [] || !IsSpace(r[|r| - 1])
    ensures r != [] <==> HasText(s)
  {
    if s != [] && IsSpace(s[|s| - 1]) then
      HasTextDropLast(s);
      TrimEnd(s[..|s| - 1])
    else
      assert s != [] ==> HasText(s) by {
        if s != [] { HasTextIff(s); }
      }
      s
  }

  /** A trailing whitespace character does not change whether there is text. */
  lemma HasTextDropLast(s: string)
    requires s != [] && IsSpace(s[|s| - 1])
    ensures HasText(s) <==> HasText(s[..|s| - 1])
  {
    HasTextIff(s);
    HasTextIff(s[..|s| - 1]);
    if Blank(s[..|s| - 1]) {
      forall i | 0 <= i < |s| ensures IsSpace(s[i]) {
        if i < |s| - 1 { assert s[i] == s[..|s| - 1][i]; }
      }
    }
  }

  /** `s.strip()`. It is empty exactly when `s` is blank, which is the test
      `if chunk.strip():` makes. */
  function Strip(s: string): (r: string)
    ensures r != [] <==> HasText(s)
  {
    TrimEnd(TrimStart(s))
  }

  lemma {:induction false} HasTextIff(s: string)
    ensures HasText(s) <==> !Blank(s)
  {
    if s != [] {
      HasTextIff(s[1..]);
      if IsSpace(s[0]) { BlankTail(s); }
    }
  }

  /** The truth value of `s.strip()`. */
  method IsStripNonEmpty(s: string) returns (b: bool)
    ensures b <==> HasText(s)
  {
    b := Strip(s) != [];
  }

  /** A word followed by whitespace (or nothing) ends where the word ends. */
  lemma {:induction false} WordEndAfterWord(w: string, t: string)
    requires IsWord(w)
    requires t == [] || IsSpace(t[0])
    ensures WordEnd(w + t) == |w|
  {
    assert (w + t)[0] == w[0];
    if |w| > 1 {
      assert (w + t)[1..] == w[1..] + t;
      assert IsWord(w[1..]) by {
        forall i | 0 <= i < |w| - 1 ensures !IsSpace(w[1..][i]) { assert w[1..][i] == w[i + 1]; }
      }
      WordEndAfterWord(w[1..], t);
    } else {
      assert (w + t)[1..] == t;
    }
  }

  /** A word followed by whitespace (or nothing) splits into that word and the split of the
      rest. */
  lemma WordsAfterWord(w: string, t: string)
    requires IsWord(w)
    requires t == [] || IsSpace(t[0])
    ensures Words(w + t) == [w] + Words(t)
  {
    var s := w + t;
    WordEndAfterWord(w, t);
    assert s[..|w|] == w && s[|w|..] == t;
  }

  /** Splitting a joined sequence of words gives the words back: `" ".join` is a right
      inverse of `split()` on what `split()` produces. */
  lemma {:induction false} WordsOfJoin(ws: seq<string>)
    requires AllWords(ws)
    ensures Words(Join(ws)) == ws
  {
    if |ws| == 0 {
    } else if |ws| == 1 {
      WordsAfterWord(ws[0], "");
      assert ws[0] + "" == ws[0];
    } else {
      var rest := Join(ws[1..]);
      assert IsWord(ws[0]);
      assert ws[0] + " " + rest == ws[0] + (" " + rest);
      WordsAfterWord(ws[0], " " + rest);
      assert (" " + rest)[1..] == rest;
      assert AllWords(ws[1..]) by {
        forall i | 0 <= i < |ws| - 1 ensures IsWord(ws[1..][i]) { assert ws[1..][i] == ws[i + 1]; }
      }
      WordsOfJoin(ws[1..]);
    }
  }

  /** Joining at least one word gives a string that is not blank, so `strip()` does not
      empty it. */
  lemma {:induction false} JoinHasText(ws: seq<string>)
    requires AllWords(ws) && |ws| > 0
    ensures HasText(Join(ws))
  {
    WordsOfJoin(ws);
  }
}
