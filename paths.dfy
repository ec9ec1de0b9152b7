/** The path handling of `extract_text_from_file` and `embed_document`: `Path(p).name`,
    `Path(p).suffix`, and the choice of reader by `suffix.lower()`.

    Paths are POSIX paths: components are separated by `/`, empty components and `.`
    components are dropped, and the name is the last remaining component. Reading a file is
    I/O through PyPDF2, python-docx or `open`, so the model takes it as a parameter. */
module Paths {
  import opened Wrappers

  /** The readers `extract_text_from_file` chooses between. */
  datatype Format = Pdf | Docx | PlainText

  /** The index of the last `/` in `p`, or -1 when there is none. */
  function LastSlash(p: string): (k: int)
    ensures -1 <= k < |p|
    ensures k >= 0 ==> p[k] == '/'
    ensures forall i :: k < i < |p| ==> p[i] != '/'
  {
    if p == [] then -1
    else if p[|p| - 1] == '/' then |p| - 1
    else LastSlash(p[..|p| - 1])
  }

  /** `Path(p).name`: the last component that is neither empty nor `.`, or `""` when there is
      none (the root, the empty path, `.`). */
  function Name(p: string): (n: string)
    ensures forall i :: 0 <= i < |n| ==> n[i] != '/'
    ensures n != "."
    decreases |p|
  {
    var k := LastSlash(p);
    var last := p[k + 1..];
    if last != [] && last != "." then last
    else if k < 0 then ""
    else Name(p[..k])
  }

  /** Neither empty nor `.`, and without a `/`: what a file name in a directory looks like. */
  predicate IsPlainName(n: string) {
    n != [] && n != "." && forall i :: 0 <= i < |n| ==> n[i] != '/'
  }

  lemma {:induction false} LastSlashOfJoin(dir: string, base: string)
    requires forall i :: 0 <= i < |base| ==> base[i] != '/'
    ensures LastSlash(dir + "/" + base) == |dir|
  {
    var p := dir + "/" + base;
    if base != [] {
      var shorter := base[..|base| - 1];
      assert p[..|p| - 1] == dir + "/" + shorter;
      LastSlashOfJoin(dir, shorter);
    }
  }

  /** The name of a file inside a directory is the file's own name, whatever the directory:
      only that name is stored in the `filename` column. */
  lemma NameOfJoin(dir: string, base: string)
    requires IsPlainName(base)
    ensures Name(dir + "/" + base) == base
  {
    var p := dir + "/" + base;
    LastSlashOfJoin(dir, base);
    assert p[|dir| + 1..] == base;
  }

  /** A path that is already a plain name is its own name. */
  lemma NameOfPlain(base: string)
    requires IsPlainName(base)
    ensures Name(base) == base
  {
    assert LastSlash(base) == -1;
  }

  /** The index of the last `.` in `n`, or -1 when there is none. */
  function LastDot(n: string): (k: int)
    ensures -1 <= k < |n|
    ensures k >= 0 ==> n[k] == '.'
    ensures forall i :: k < i < |n| ==> n[i] != '.'
  {
    if n == [] then -1
    else if n[|n| - 1] == '.' then |n| - 1
    else LastDot(n[..|n| - 1])
  }

  /** `Path(p).suffix`: from the last `.` of the name to its end, unless that dot starts the
      name or ends it. */
  function Suffix(p: string): (s: string)
    ensures s == [] || (|s| >= 2 && s[0] == '.')
    ensures forall i :: 0 < i < |s| ==> s[i] != '.'
  {
    var n := Name(p);
    var k := LastDot(n);
    if 0 < k < |n| - 1 then n[k..] else ""
  }

  /** `c.lower()` for ASCII letters. The other characters whose lower case is ASCII (the
      Kelvin sign, which lowers to `k`, and the dotted capital I, which lowers to two
      characters) cannot turn a suffix into one of the four below, so comparing ASCII
      lower case gives the same answers as `str.lower()`. */
  function LowerAscii(c: char): char {
    if 'A' <= c <= 'Z' then (c as int - 'A' as int + 'a' as int) as char else c
  }

  function Lower(s: string): (r: string)
    ensures |r| == |s|
    ensures forall i :: 0 <= i < |s| ==> r[i] == LowerAscii(s[i])
  {
    if s == [] then "" else [LowerAscii(s[0])] + Lower(s[1..])
  }

  /** The reader for a suffix: `.pdf`, `.docx`, `.txt` or `.md` in any mix of cases. */
  function Classify(suffix: string): Option<Format> {
    var l := Lower(suffix);
    if l == ".pdf" then Some(Pdf)
    else if l == ".docx" then Some(Docx)
    else if l == ".txt" || l == ".md" then Some(PlainText)
    else None
  }

  /** Two strings that differ only in the case of ASCII letters. */
  predicate SameIgnoringCase(s: string, t: string) {
    |s| == |t| && forall i :: 0 <= i < |s| ==> LowerAscii(s[i]) == LowerAscii(t[i])
  }

  /** The choice of reader does not depend on the case of the suffix. */
  lemma ClassifyIgnoresCase(s: string, t: string)
    requires SameIgnoringCase(s, t)
    ensures Classify(s) == Classify(t)
  {
    assert Lower(s) == Lower(t);
  }

  /** `extract_text_from_file(p)`: a missing file and an unsupported suffix are errors, with
      the messages the source raises (the message shows the suffix as written); otherwise the
      reader for the suffix is used. `present` is `Path(p).exists()` and `read` stands for the
      three readers. */
  function ExtractText(p: string, present: string -> bool, read: (string, Format) -> Result<string>)
    : (r: Result<string>)
    ensures !present(p) ==> r == Err("File not found: " + p)
    ensures present(p) && Lower(Suffix(p)) == ".pdf" ==> r == read(p, Pdf)
    ensures present(p) && Lower(Suffix(p)) == ".docx" ==> r == read(p, Docx)
    ensures present(p) && Lower(Suffix(p)) in {".txt", ".md"} ==> r == read(p, PlainText)
    ensures present(p) && Lower(Suffix(p)) !in {".pdf", ".docx", ".txt", ".md"} ==>
              r == Err("Unsupported file format: " + Suffix(p))
  {
    if !present(p) then Err("File not found: " + p)
    else
      match Classify(Suffix(p))
      case None => Err("Unsupported file format: " + Suffix(p))
      case Some(f) => read(p, f)
  }

  /** A name without a suffix the readers know is refused before anything is read. */
  lemma NoSuffixUnsupported(p: string, present: string -> bool, read: (string, Format) -> Result<string>)
    requires present(p) && Suffix(p) == ""
    ensures ExtractText(p, present, read) == Err("Unsupported file format: ")
  {
    assert Lower("") == "";
  }
}
