/** The metadata column: `json.dumps(metadata or {})` when a document is stored and
    `json.loads(metadata) if metadata else {}` when it is read back.

    `Dumps` produces exactly the text Python's encoder produces with its default settings:
    `", "` between items, `": "` between a key and its value, and every character outside
    printable ASCII written as a `\uXXXX` escape (a surrogate pair above U+FFFF). `Loads`
    follows Python's decoder: whitespace is space, tab, newline and carriage return; an
    integer has no leading zeros; escapes are the eight one-letter ones and `\uXXXX`; raw
    control characters inside a string are refused; duplicate keys keep the first key's
    place and the last value. Floating-point numbers are not part of the model. */
module Json {
  import opened Wrappers

  datatype Value =
    | Null
    | Bool(b: bool)
    | Int(i: int)
    | Str(s: string)
    | Arr(items: seq<Value>)
    | Obj(members: seq<Member>)

  /** One key of a JSON object (a Python `dict` entry) and its value. */
  datatype Member = Member(key: string, val: Value)

  // The heads of the messages of Python's `JSONDecodeError`s; the model leaves out the
  // "line/column" part.
  const ExpectingValue: string := "Expecting value"
  const ExtraData: string := "Extra data"
  const Unterminated: string := "Unterminated string starting at"
  const InvalidControl: string := "Invalid control character at"
  const InvalidEscape: string := "Invalid \\escape"
  const InvalidUnicodeEscape: string := "Invalid \\uXXXX escape"
  const ExpectingComma: string := "Expecting ',' delimiter"
  const ExpectingColon: string := "Expecting ':' delimiter"
  const ExpectingName: string := "Expecting property name enclosed in double quotes"
  // Inputs Python accepts but the model does not represent.
  const FloatNotModelled: string := "floating-point numbers are not modelled"
  const SurrogateNotModelled: string := "unpaired surrogate escapes are not modelled"

  // ---------------------------------------------------------------- characters

  predicate IsDigit(c: char) { '0' <= c <= '9' }

  predicate IsWs(c: char) { c == ' ' || c == '\t' || c == '\n' || c == '\r' }

  function DigitChar(d: int): (c: char)
    requires 0 <= d < 10
    ensures IsDigit(c)
  {
    ('0' as int + d) as char
  }

  function HexDigit(d: int): char
    requires 0 <= d < 16
  {
    if d < 10 then DigitChar(d) else ('a' as int + d - 10) as char
  }

  /** The value of a hexadecimal digit in either case. */
  function HexValue(c: char): (r: Option<int>)
    ensures r.Some? ==> 0 <= r.value < 16
  {
    if '0' <= c <= '9' then Some(c as int - '0' as int)
    else if 'a' <= c <= 'f' then Some(c as int - 'a' as int + 10)
    else if 'A' <= c <= 'F' then Some(c as int - 'A' as int + 10)
    else None
  }

  /** Four lower-case hexadecimal digits, as the encoder writes them. */
  function Hex4(n: int): (s: string)
    requires 0 <= n < 0x1_0000
    ensures |s| == 4
  {
    [HexDigit(n / 0x1000), HexDigit(n / 0x100 % 0x10), HexDigit(n / 0x10 % 0x10), HexDigit(n % 0x10)]
  }

  /** The four hexadecimal digits at the start of `s`, if there are four. */
  function ParseHex4(s: string): (r: Option<int>)
    ensures r.Some? ==> 0 <= r.value < 0x1_0000
  {
    if |s| < 4 then None
    else
      match (HexValue(s[0]), HexValue(s[1]), HexValue(s[2]), HexValue(s[3]))
      case (Some(a), Some(b), Some(c), Some(d)) => Some(a * 0x1000 + b * 0x100 + c * 0x10 + d)
      case _ => None
  }

  // ---------------------------------------------------------------- the encoder

  /** `str(n)` for a natural number. */
  function NatText(n: nat): (s: string)
    ensures |s| > 0 && IsDigit(s[0])
    ensures s[0] == '0' <==> n == 0
    ensures n == 0 ==> s == "0"
  {
    if n < 10 then [DigitChar(n)] else NatText(n / 10) + [DigitChar(n % 10)]
  }

  /** `str(i)` for an integer. */
  function IntText(i: int): string {
    if i < 0 then "-" + NatText(-i) else NatText(i)
  }

  /** The letter of the two-character escape the encoder uses for `c`, if it has one. */
  function ShortEscape(c: char): Option<char> {
    if c == '"' then Some('"')
    else if c == '\\' then Some('\\')
    else if c == '\n' then Some('n')
    else if c == '\r' then Some('r')
    else if c == '\t' then Some('t')
    else if c as int == 0x08 then Some('b')
    else if c as int == 0x0C then Some('f')
    else None
  }

  /** How the encoder writes one character of a string. */
  function EscapeChar(c: char): string {
    match ShortEscape(c)
    case Some(letter) => ['\\', letter]
    case None =>
      if ' ' <= c <= '~' then [c]
      else if c as int < 0x1_0000 then ['\\', 'u'] + Hex4(c as int)
      else
        var m := c as int - 0x1_0000;
        ['\\', 'u'] + Hex4(0xD800 + m / 0x400) + (['\\', 'u'] + Hex4(0xDC00 + m % 0x400))
  }

  function Escaped(s: string): string {
    if s == [] then "" else EscapeChar(s[0]) + Escaped(s[1..])
  }

  function Quote(s: string): string {
    "\"" + (Escaped(s) + "\"")
  }

  /** `json.dumps(v)`. */
  function Dumps(v: Value): string {
    match v
    case Null => "null"
    case Bool(b) => if b then "true" else "false"
    case Int(i) => IntText(i)
    case Str(s) => Quote(s)
    case Arr(items) => "[" + (DumpItems(items) + "]")
    case Obj(ms) => "{" + (DumpMembers(ms) + "}")
  }

  function DumpItems(items: seq<Value>): string {
    if items == [] then ""
    else if |items| == 1 then Dumps(items[0])
    else Dumps(items[0]) + (", " + DumpItems(items[1..]))
  }

  function DumpMember(m: Member): string {
    Quote(m.key) + (": " + Dumps(m.val))
  }

  function DumpMembers(ms: seq<Member>): string {
    if ms == [] then ""
    else if |ms| == 1 then DumpMember(ms[0])
    else DumpMember(ms[0]) + (", " + DumpMembers(ms[1..]))
  }

  // ---------------------------------------------------------------- the decoder

  /** `s` without its leading JSON whitespace. */
  function SkipWs(s: string): (r: string)
    ensures |r| <= |s|
    ensures r == [] || !IsWs(r[0])
  {
    if s != [] && IsWs(s[0]) then SkipWs(s[1..]) else s
  }

  predicate StartsWith(s: string, p: string) {
    |p| <= |s| && s[..|p|] == p
  }

  /** The length of the leading run of digits of `s`. */
  function DigitRun(s: string): (k: nat)
    ensures k <= |s|
    ensures forall i :: 0 <= i < k ==> IsDigit(s[i])
    ensures k < |s| ==> !IsDigit(s[k])
  {
    if s != [] && IsDigit(s[0]) then 1 + DigitRun(s[1..]) else 0
  }

  /** The number a run of decimal digits denotes. */
  function DigitsValue(ds: string): nat
    requires forall i :: 0 <= i < |ds| ==> IsDigit(ds[i])
  {
    if ds == [] then 0 else DigitsValue(ds[..|ds| - 1]) * 10 + DigitValue(ds[|ds| - 1])
  }

  function DigitValue(c: char): (d: nat)
    requires IsDigit(c)
    ensures d < 10
  {
    c as int - '0' as int
  }

  /** A fraction part: a point followed by a digit. */
  predicate HasFraction(s: string) {
    |s| >= 2 && s[0] == '.' && IsDigit(s[1])
  }

  /** An exponent part: `e` or `E`, an optional sign, then a digit. */
  predicate HasExponent(s: string) {
    |s| >= 2 && (s[0] == 'e' || s[0] == 'E') &&
    (IsDigit(s[1]) || (|s| >= 3 && (s[1] == '+' || s[1] == '-') && IsDigit(s[2])))
  }

  /** A number: an optional minus, then `0` or a digit run not starting with `0`. When a
      fraction or an exponent follows, Python makes a `float`, which the model refuses. */
  function ParseNumber(s: string): (r: Result<(Value, string)>)
    ensures r.Ok? ==> |r.value.1| < |s|
  {
    var neg := s != [] && s[0] == '-';
    match ParseUnsigned(if neg then s[1..] else s)
    case Err(e) => Err(e)
    case Ok((n, rest)) => Ok((Int(if neg then -n else n), rest))
  }

  /** The digits of a number without its sign. */
  function ParseUnsigned(t: string): (r: Result<(int, string)>)
    ensures r.Ok? ==> |r.value.1| < |t|
  {
    if t == [] || !IsDigit(t[0]) then Err(ExpectingValue)
    else
      var k := if t[0] == '0' then 1 else DigitRun(t);
      var rest := t[k..];
      if HasFraction(rest) || HasExponent(rest) then Err(FloatNotModelled)
      else Ok((DigitsValue(t[..k]), rest))
  }

  /** The character a one-letter escape stands for. */
  function SimpleEscape(c: char): Option<char> {
    if c == '"' then Some('"')
    else if c == '\\' then Some('\\')
    else if c == '/' then Some('/')
    else if c == 'b' then Some(0x08 as char)
    else if c == 'f' then Some(0x0C as char)
    else if c == 'n' then Some('\n')
    else if c == 'r' then Some('\r')
    else if c == 't' then Some('\t')
    else None
  }

  /** The code point a surrogate pair stands for. */
  function JoinSurrogates(hi: int, lo: int): (n: int)
    requires 0xD800 <= hi < 0xDC00 && 0xDC00 <= lo < 0xE000
    ensures 0x1_0000 <= n < 0x11_0000
  {
    0x1_0000 + (hi - 0xD800) * 0x400 + (lo - 0xDC00)
  }

  /** One escape; `s` starts just after the backslash. */
  function ParseEscape(s: string): (r: Result<(char, string)>)
    ensures r.Ok? ==> |r.value.1| < |s|
  {
    if s == [] then Err(Unterminated)
    else if s[0] != 'u' then
      match SimpleEscape(s[0])
      case Some(c) => Ok((c, s[1..]))
      case None => Err(InvalidEscape)
    else
      match ParseHex4(s[1..])
      case None => Err(InvalidUnicodeEscape)
      case Some(u) =>
        var rest := s[5..];
        if 0xD800 <= u < 0xDC00 && |rest| >= 6 && rest[0] == '\\' && rest[1] == 'u' then
          match ParseHex4(rest[2..])
          case None => Err(InvalidUnicodeEscape)
          case Some(u2) =>
            if 0xDC00 <= u2 < 0xE000 then Ok((JoinSurrogates(u, u2) as char, rest[6..]))
            else Err(SurrogateNotModelled)
        else if 0xD800 <= u < 0xE000 then Err(SurrogateNotModelled)
        else Ok((u as char, rest))
  }

  /** The contents of a string; `s` starts just after the opening quote, and the rest returned
      starts just after the closing quote. */
  function ParseChars(s: string): (r: Result<(string, string)>)
    ensures r.Ok? ==> |r.value.1| < |s|
    decreases |s|
  {
    if s == [] then Err(Unterminated)
    else if s[0] == '"' then Ok(([], s[1..]))
    else if s[0] == '\\' then
      match ParseEscape(s[1..])
      case Err(e) => Err(e)
      case Ok((c, rest)) => Cons(c, ParseChars(rest))
    else if s[0] < ' ' then Err(InvalidControl)
    else Cons(s[0], ParseChars(s[1..]))
  }

  function Cons(c: char, r: Result<(string, string)>): Result<(string, string)> {
    match r
    case Err(e) => Err(e)
    case Ok((cs, rest)) => Ok(([c] + cs, rest))
  }

  /** One value at the start of `s`, and what follows it. Like Python's scanner, it
      dispatches on the first character. */
  function ParseValue(s: string): (r: Result<(Value, string)>)
    ensures r.Ok? ==> |r.value.1| < |s|
    decreases |s|, 0
  {
    if s == [] then Err(ExpectingValue)
    else if s[0] == '"' then
      match ParseChars(s[1..])
      case Err(e) => Err(e)
      case Ok((str, rest)) => Ok((Str(str), rest))
    else if s[0] == '{' then ParseObject(s[1..])
    else if s[0] == '[' then ParseArray(s[1..])
    else if s[0] == 'n' then (if StartsWith(s, "null") then Ok((Null, s[4..])) else Err(ExpectingValue))
    else if s[0] == 't' then (if StartsWith(s, "true") then Ok((Bool(true), s[4..])) else Err(ExpectingValue))
    else if s[0] == 'f' then (if StartsWith(s, "false") then Ok((Bool(false), s[5..])) else Err(ExpectingValue))
    else if s[0] == 'N' then (if StartsWith(s, "NaN") then Err(FloatNotModelled) else Err(ExpectingValue))
    else if s[0] == 'I' then (if StartsWith(s, "Infinity") then Err(FloatNotModelled) else Err(ExpectingValue))
    else if s[0] == '-' && StartsWith(s, "-Infinity") then Err(FloatNotModelled)
    else if s[0] == '-' || IsDigit(s[0]) then ParseNumber(s)
    else Err(ExpectingValue)
  }

  /** An array; `s` starts just after the `[`. */
  function ParseArray(s: string): (r: Result<(Value, string)>)
    ensures r.Ok? ==> |r.value.1| < |s|
    decreases |s|, 2
  {
    var t := SkipWs(s);
    if t != [] && t[0] == ']' then Ok((Arr([]), t[1..]))
    else
      match ParseItems(t)
      case Err(e) => Err(e)
      case Ok((items, rest)) => Ok((Arr(items), rest))
  }

  /** The items of a non-empty array, from the first item to just after the `]`. */
  function ParseItems(s: string): (r: Result<(seq<Value>, string)>)
    ensures r.Ok? ==> |r.value.1| < |s|
    decreases |s|, 1
  {
    match ParseValue(s)
    case Err(e) => Err(e)
    case Ok((v, rest)) => MoreItems(v, rest)
  }

  /** What follows item `v`: the closing `]`, or a comma and the remaining items. */
  function MoreItems(v: Value, s: string): (r: Result<(seq<Value>, string)>)
    ensures r.Ok? ==> |r.value.1| < |s|
    decreases |s|, 2
  {
    var t := SkipWs(s);
    if t != [] && t[0] == ']' then Ok(([v], t[1..]))
    else if t != [] && t[0] == ',' then
      match ParseItems(SkipWs(t[1..]))
      case Err(e) => Err(e)
      case Ok((vs, u)) => Ok(([v] + vs, u))
    else Err(ExpectingComma)
  }

  /** An object; `s` starts just after the `{`. */
  function ParseObject(s: string): (r: Result<(Value, string)>)
    ensures r.Ok? ==> |r.value.1| < |s|
    decreases |s|, 2
  {
    var t := SkipWs(s);
    if t != [] && t[0] == '}' then Ok((Obj([]), t[1..]))
    else if t != [] && t[0] == '"' then
      match ParseMembers(t[1..])
      case Err(e) => Err(e)
      case Ok((ms, rest)) => Ok((Obj(Dict(ms)), rest))
    else Err(ExpectingName)
  }

  /** The key-value pairs of a non-empty object, from just after the first key's opening quote
      to just after the `}`. */
  function ParseMembers(s: string): (r: Result<(seq<Member>, string)>)
    ensures r.Ok? ==> |r.value.1| < |s|
    decreases |s|, 1
  {
    match ParseChars(s)
    case Err(e) => Err(e)
    case Ok((key, r1)) =>
      var r2 := SkipWs(r1);
      if r2 == [] || r2[0] != ':' then Err(ExpectingColon)
      else
        match ParseValue(SkipWs(r2[1..]))
        case Err(e) => Err(e)
        case Ok((v, r3)) => MoreMembers(Member(key, v), r3)
  }

  /** What follows member `m`: the closing `}`, or a comma and the remaining members. */
  function MoreMembers(m: Member, s: string): (r: Result<(seq<Member>, string)>)
    ensures r.Ok? ==> |r.value.1| < |s|
    decreases |s|, 2
  {
    var r4 := SkipWs(s);
    if r4 != [] && r4[0] == '}' then Ok(([m], r4[1..]))
    else if r4 != [] && r4[0] == ',' then
      var r5 := SkipWs(r4[1..]);
      if r5 != [] && r5[0] == '"' then
        match ParseMembers(r5[1..])
        case Err(e) => Err(e)
        case Ok((ms, r6)) => Ok(([m] + ms, r6))
      else Err(ExpectingName)
    else Err(ExpectingComma)
  }

  function KeysOf(ms: seq<Member>): seq<string> {
    if ms == [] then [] else [ms[0].key] + KeysOf(ms[1..])
  }

  /** `d[m.key] = m.val` on a dict: an existing key keeps its place and takes the new value,
      a new key goes at the end. */
  function Put(ms: seq<Member>, m: Member): seq<Member> {
    if ms == [] then [m]
    else if ms[0].key == m.key then [m] + ms[1..]
    else [ms[0]] + Put(ms[1..], m)
  }

  /** `dict(pairs)`. */
  function Dict(pairs: seq<Member>): seq<Member> {
    if pairs == [] then [] else Put(Dict(pairs[..|pairs| - 1]), pairs[|pairs| - 1])
  }

  /** `json.loads(s)`: one value with optional whitespace around it. */
  function Loads(s: string): Result<Value> {
    match ParseValue(SkipWs(s))
    case Err(e) => Err(e)
    case Ok((v, rest)) => if SkipWs(rest) == [] then Ok(v) else Err(ExtraData)
  }

  // ---------------------------------------------------------------- the round trip

  /** What a Python value can be: every object has distinct keys. */
  predicate WellFormed(v: Value) {
    match v
    case Arr(items) => ItemsWellFormed(items)
    case Obj(ms) => MembersWellFormed(ms)
    case _ => true
  }

  predicate ItemsWellFormed(items: seq<Value>) {
    items == [] || (WellFormed(items[0]) && ItemsWellFormed(items[1..]))
  }

  predicate MembersWellFormed(ms: seq<Member>) {
    ms == [] ||
    (WellFormed(ms[0].val) && ms[0].key !in KeysOf(ms[1..]) && MembersWellFormed(ms[1..]))
  }

  /** What may follow a value in the encoder's output. */
  predicate Delimiter(t: string) {
    t == [] || t[0] == ',' || t[0] == ']' || t[0] == '}'
  }

  /** The characters the encoding of a value can start with. */
  predicate ValueStart(c: char) {
    c == 'n' || c == 't' || c == 'f' || c == '-' || IsDigit(c) || c == '"' || c == '[' || c == '{'
  }


  // ---------------------------------------------------------------- the round trip
  //
  // The property is `LoadsDumps` at the end of this section. Everything before it is
  // scaffolding: small steps that Dafny could often take by itself. They are kept as lemmas of
  // their own so that each step is proved in a small context, which keeps the larger proofs
  // stable. They serve these lemmas:
  //   Assoc, Uncons, HeadOfAppend                 every round trip below, for string regrouping;
  //   SkipWsNone, SkipWsSpace                     ItemsRoundTrip and MembersRoundTrip (the
  //                                               whitespace after `,` and `:`);
  //   CharsEnd ... PairText                       EscapeRoundTrip, one per kind of escape;
  //   ShortRoundTrip ... PairRoundTrip            EscapeRoundTrip, then CharsRoundTrip and
  //                                               StrRoundTrip;
  //   DigitsOfNatText ... NumberRoundTrip         ValueRoundTrip on integers;
  //   NullRoundTrip, BoolRoundTrip                ValueRoundTrip on constants;
  //   DumpsStart ... DictDistinct                 the array and object round trips (what
  //                                               starts a value, and distinct keys);
  //   ItemsLast ... ItemsText                     ArrayRoundTrip and ItemsRoundTrip;
  //   After ... MoreMembersNext                   ObjectRoundTrip and MembersRoundTrip.

  // String algebra.

  lemma Assoc(a: string, b: string, c: string)
    ensures (a + b) + c == a + (b + c)
  {
  }

  lemma Uncons(c: char, s: string)
    ensures ([c] + s)[0] == c && ([c] + s)[1..] == s
  {
  }

  lemma HeadOfAppend(a: string, b: string)
    requires a != []
    ensures (a + b)[0] == a[0]
  {
  }

  lemma SkipWsNone(s: string)
    requires s == [] || !IsWs(s[0])
    ensures SkipWs(s) == s
  {
  }

  lemma SkipWsSpace(s: string)
    requires s == [] || !IsWs(s[0])
    ensures SkipWs(" " + s) == s
  {
    assert (" " + s)[1..] == s;
  }

  // One step of the decoder at a time.

  lemma CharsEnd(t: string)
    ensures ParseChars("\"" + t) == Ok(([], t))
  {
    assert ("\"" + t)[1..] == t;
  }

  lemma CharsPlain(c: char, rest: string)
    requires c != '"' && c != '\\' && c >= ' '
    ensures ParseChars([c] + rest) == Cons(c, ParseChars(rest))
  {
    Uncons(c, rest);
  }

  lemma CharsEscape(e: string, c: char, rest: string)
    requires ParseEscape(e) == Ok((c, rest))
    ensures ParseChars(['\\'] + e) == Cons(c, ParseChars(rest))
  {
    Uncons('\\', e);
  }

  lemma ShortEscapeStep(letter: char, c: char, rest: string)
    requires letter != 'u' && SimpleEscape(letter) == Some(c)
    ensures ParseEscape([letter] + rest) == Ok((c, rest))
  {
    Uncons(letter, rest);
  }

  lemma HexDigitValue(d: int)
    requires 0 <= d < 16
    ensures HexValue(HexDigit(d)) == Some(d)
  {
  }

  lemma HexRoundTrip(n: int, rest: string)
    requires 0 <= n < 0x1_0000
    ensures ParseHex4(Hex4(n) + rest) == Some(n)
  {
    var s := Hex4(n) + rest;
    var a, b, c, d := n / 0x1000, n / 0x100 % 0x10, n / 0x10 % 0x10, n % 0x10;
    HexDigitValue(a);
    HexDigitValue(b);
    HexDigitValue(c);
    HexDigitValue(d);
    assert s[0] == HexDigit(a) && s[1] == HexDigit(b) && s[2] == HexDigit(c) && s[3] == HexDigit(d);
    var q := n / 0x10;
    var q2 := q / 0x10;
    assert n == q * 0x10 + d;
    assert q == q2 * 0x10 + c;
    assert q2 == n / 0x100 && q2 / 0x10 == a;
    assert q2 == a * 0x10 + b;
  }

  lemma UnicodeEscape(n: int, rest: string)
    requires 0 <= n < 0x1_0000 && !(0xD800 <= n < 0xE000)
    ensures ParseEscape(['u'] + (Hex4(n) + rest)) == Ok((n as char, rest))
  {
    var e := ['u'] + (Hex4(n) + rest);
    Uncons('u', Hex4(n) + rest);
    HexRoundTrip(n, rest);
    assert e[5..] == rest;
  }

  lemma PairEscape(hi: int, lo: int, rest: string)
    requires 0xD800 <= hi < 0xDC00 && 0xDC00 <= lo < 0xE000
    ensures ParseEscape(['u'] + (Hex4(hi) + (['\\', 'u'] + (Hex4(lo) + rest)))) ==
            Ok((JoinSurrogates(hi, lo) as char, rest))
  {
    var tail := ['\\', 'u'] + (Hex4(lo) + rest);
    var e := ['u'] + (Hex4(hi) + tail);
    Uncons('u', Hex4(hi) + tail);
    HexRoundTrip(hi, tail);
    assert e[5..] == tail;
    assert tail[0] == '\\' && tail[1] == 'u' && tail[2..] == Hex4(lo) + rest;
    HexRoundTrip(lo, rest);
    assert tail[6..] == rest;
  }

  lemma ShortEscapeInverse(c: char)
    requires ShortEscape(c).Some?
    ensures ShortEscape(c).value != 'u' && SimpleEscape(ShortEscape(c).value) == Some(c)
  {
  }

  lemma BmpText(c: char, rest: string)
    requires ShortEscape(c).None? && !(' ' <= c <= '~') && c as int < 0x1_0000
    ensures EscapeChar(c) + rest == ['\\'] + (['u'] + (Hex4(c as int) + rest))
  {
    var h := Hex4(c as int);
    assert EscapeChar(c) == ['\\', 'u'] + h;
    Assoc(['\\', 'u'], h, rest);
    assert ['\\', 'u'] == ['\\'] + ['u'];
    Assoc(['\\'], ['u'], h + rest);
  }

  /** Two `\\u` escapes in a row, regrouped as the decoder reads them. */
  lemma PairLayout(h: string, l: string, rest: string)
    ensures ['\\', 'u'] + h + (['\\', 'u'] + l) + rest ==
            ['\\'] + (['u'] + (h + (['\\', 'u'] + (l + rest))))
  {
    var u := ['\\', 'u'];
    Assoc(u + h, u + l, rest);
    Assoc(u, l, rest);
    Assoc(u, h, u + (l + rest));
    assert u == ['\\'] + ['u'];
    Assoc(['\\'], ['u'], h + (u + (l + rest)));
  }

  lemma PairText(c: char, rest: string)
    requires c as int >= 0x1_0000
    ensures var m := c as int - 0x1_0000;
      EscapeChar(c) + rest ==
      ['\\'] + (['u'] + (Hex4(0xD800 + m / 0x400) + (['\\', 'u'] + (Hex4(0xDC00 + m % 0x400) + rest))))
  {
    var m := c as int - 0x1_0000;
    var h := Hex4(0xD800 + m / 0x400);
    var l := Hex4(0xDC00 + m % 0x400);
    assert EscapeChar(c) == ['\\', 'u'] + h + (['\\', 'u'] + l);
    PairLayout(h, l, rest);
  }

  lemma ShortRoundTrip(c: char, rest: string)
    requires ShortEscape(c).Some?
    ensures ParseChars(EscapeChar(c) + rest) == Cons(c, ParseChars(rest))
  {
    var letter := ShortEscape(c).value;
    ShortEscapeInverse(c);
    assert EscapeChar(c) == ['\\', letter];
    assert ['\\', letter] + rest == ['\\'] + ([letter] + rest);
    ShortEscapeStep(letter, c, rest);
    CharsEscape([letter] + rest, c, rest);
  }

  lemma PlainRoundTrip(c: char, rest: string)
    requires ShortEscape(c).None? && ' ' <= c <= '~'
    ensures ParseChars(EscapeChar(c) + rest) == Cons(c, ParseChars(rest))
  {
    assert EscapeChar(c) == [c];
    CharsPlain(c, rest);
  }

  lemma BmpRoundTrip(c: char, rest: string)
    requires ShortEscape(c).None? && !(' ' <= c <= '~') && c as int < 0x1_0000
    ensures ParseChars(EscapeChar(c) + rest) == Cons(c, ParseChars(rest))
  {
    var e := ['u'] + (Hex4(c as int) + rest);
    BmpText(c, rest);
    UnicodeEscape(c as int, rest);
    CharsEscape(e, c, rest);
  }

  lemma PairRoundTrip(c: char, rest: string)
    requires c as int >= 0x1_0000
    ensures ParseChars(EscapeChar(c) + rest) == Cons(c, ParseChars(rest))
  {
    var m := c as int - 0x1_0000;
    var hi, lo := 0xD800 + m / 0x400, 0xDC00 + m % 0x400;
    var e := ['u'] + (Hex4(hi) + (['\\', 'u'] + (Hex4(lo) + rest)));
    PairText(c, rest);
    PairEscape(hi, lo, rest);
    assert JoinSurrogates(hi, lo) == c as int;
    CharsEscape(e, c, rest);
  }

  /** Decoding one encoded character gives the character and consumes exactly its encoding. */
  lemma EscapeRoundTrip(c: char, rest: string)
    ensures ParseChars(EscapeChar(c) + rest) == Cons(c, ParseChars(rest))
  {
    if ShortEscape(c).Some? {
      ShortRoundTrip(c, rest);
    } else if ' ' <= c <= '~' {
      PlainRoundTrip(c, rest);
    } else if c as int < 0x1_0000 {
      BmpRoundTrip(c, rest);
    } else {
      PairRoundTrip(c, rest);
    }
  }

  lemma {:induction false} CharsRoundTrip(str: string, t: string)
    ensures ParseChars(Escaped(str) + ("\"" + t)) == Ok((str, t))
  {
    if str == [] {
      assert Escaped(str) + ("\"" + t) == "\"" + t;
      CharsEnd(t);
    } else {
      var rest := Escaped(str[1..]) + ("\"" + t);
      Assoc(EscapeChar(str[0]), Escaped(str[1..]), "\"" + t);
      EscapeRoundTrip(str[0], rest);
      CharsRoundTrip(str[1..], t);
      assert [str[0]] + str[1..] == str;
    }
  }

  lemma StrRoundTrip(str: string, t: string)
    ensures ParseValue(Dumps(Str(str)) + t) == Ok((Str(str), t))
  {
    var body := Escaped(str) + ("\"" + t);
    Assoc(Escaped(str), "\"", t);
    Assoc("\"", Escaped(str) + "\"", t);
    assert Dumps(Str(str)) + t == "\"" + body;
    Uncons('"', body);
    CharsRoundTrip(str, t);
  }

  lemma {:induction false} DigitsOfNatText(n: nat)
    ensures forall i :: 0 <= i < |NatText(n)| ==> IsDigit(NatText(n)[i])
    ensures DigitsValue(NatText(n)) == n
  {
    if n >= 10 {
      DigitsOfNatText(n / 10);
      var s := NatText(n);
      assert s[..|s| - 1] == NatText(n / 10);
    }
  }

  lemma {:induction false} DigitRunOfDigits(ds: string, t: string)
    requires forall i :: 0 <= i < |ds| ==> IsDigit(ds[i])
    requires Delimiter(t)
    ensures DigitRun(ds + t) == |ds|
  {
    if ds != [] {
      assert (ds + t)[0] == ds[0] && (ds + t)[1..] == ds[1..] + t;
      DigitRunOfDigits(ds[1..], t);
    }
  }

  lemma UnsignedRoundTrip(n: nat, t: string)
    requires Delimiter(t)
    ensures ParseUnsigned(NatText(n) + t) == Ok((n, t))
  {
    var digits := NatText(n);
    var u := digits + t;
    DigitsOfNatText(n);
    HeadOfAppend(digits, t);
    var k := if u[0] == '0' then 1 else DigitRun(u);
    assert k == |digits| by {
      if u[0] != '0' {
        DigitRunOfDigits(digits, t);
      }
    }
    assert u[..k] == digits && u[k..] == t;
    assert !HasFraction(t) && !HasExponent(t);
  }

  lemma ParseNumberOfText(i: int, t: string)
    requires Delimiter(t)
    ensures ParseNumber(IntText(i) + t) == Ok((Int(i), t))
  {
    var n := if i < 0 then -i else i;
    var u := NatText(n) + t;
    UnsignedRoundTrip(n, t);
    HeadOfAppend(NatText(n), t);
    if i < 0 {
      Assoc("-", NatText(n), t);
      Uncons('-', u);
    } else {
      assert IntText(i) + t == u && u[0] != '-';
    }
  }

  lemma NumberRoundTrip(i: int, t: string)
    requires Delimiter(t)
    ensures ParseValue(Dumps(Int(i)) + t) == Ok((Int(i), t))
  {
    var n := if i < 0 then -i else i;
    var u := NatText(n) + t;
    var s := Dumps(Int(i)) + t;
    ParseNumberOfText(i, t);
    HeadOfAppend(NatText(n), t);
    if i < 0 {
      Assoc("-", NatText(n), t);
      Uncons('-', u);
      assert s[1] == u[0];
      assert !StartsWith(s, "-Infinity") by {
        if |s| >= 9 { assert s[..9][1] == s[1]; }
      }
    }
  }

  lemma NullRoundTrip(t: string)
    ensures ParseValue(Dumps(Null) + t) == Ok((Null, t))
  {
    var s := "null" + t;
    assert s[0] == 'n' && s[..4] == "null" && s[4..] == t;
  }

  lemma BoolRoundTrip(b: bool, t: string)
    ensures ParseValue(Dumps(Bool(b)) + t) == Ok((Bool(b), t))
  {
    if b {
      var s := "true" + t;
      assert s[0] == 't' && s[..4] == "true" && s[4..] == t;
    } else {
      var s := "false" + t;
      assert s[0] == 'f' && s[..5] == "false" && s[5..] == t;
    }
  }

  /** The encoder's output starts with a character that opens a value. */
  lemma DumpsStart(v: Value)
    ensures |Dumps(v)| > 0 && ValueStart(Dumps(v)[0])
  {
    match v
    case Int(i) =>
      if i >= 0 { assert Dumps(v)[0] == NatText(i)[0]; }
    case _ =>
  }

  lemma DumpItemsStart(items: seq<Value>)
    requires items != []
    ensures |DumpItems(items)| > 0 && ValueStart(DumpItems(items)[0])
  {
    DumpsStart(items[0]);
    if |items| > 1 {
      HeadOfAppend(Dumps(items[0]), ", " + DumpItems(items[1..]));
    }
  }

  lemma PutAbsent(ms: seq<Member>, m: Member)
    requires m.key !in KeysOf(ms)
    ensures Put(ms, m) == ms + [m]
  {
    if ms != [] {
      PutAbsent(ms[1..], m);
    }
  }

  lemma KeysOfAppend(ms: seq<Member>, m: Member)
    ensures KeysOf(ms + [m]) == KeysOf(ms) + [m.key]
  {
    if ms != [] {
      assert (ms + [m])[1..] == ms[1..] + [m];
      KeysOfAppend(ms[1..], m);
    }
  }

  lemma {:induction false} DistinctInit(ms: seq<Member>)
    requires ms != [] && MembersWellFormed(ms)
    ensures MembersWellFormed(ms[..|ms| - 1])
    ensures ms[|ms| - 1].key !in KeysOf(ms[..|ms| - 1])
  {
    if |ms| > 1 {
      var init := ms[..|ms| - 1];
      var last := ms[|ms| - 1];
      DistinctInit(ms[1..]);
      assert init[1..] == ms[1..][..|ms| - 2];
      KeysOfAppend(init[1..], last);
      assert init[1..] + [last] == ms[1..];
      assert init[0] == ms[0];
    }
  }

  /** `dict(pairs)` keeps a list of pairs with distinct keys as it is. */
  lemma {:induction false} DictDistinct(ms: seq<Member>)
    requires MembersWellFormed(ms)
    ensures Dict(ms) == ms
  {
    if ms != [] {
      var init := ms[..|ms| - 1];
      var last := ms[|ms| - 1];
      DistinctInit(ms);
      DictDistinct(init);
      PutAbsent(init, last);
      assert init + [last] == ms;
    }
  }

  lemma ItemsLast(s: string, v: Value, t: string)
    requires ParseValue(s) == Ok((v, "]" + t))
    ensures ParseItems(s) == Ok(([v], t))
  {
    Uncons(']', t);
  }

  lemma ItemsNext(s: string, v: Value, more: string, vs: seq<Value>, t: string)
    requires ParseValue(s) == Ok((v, ", " + more))
    requires more != [] && !IsWs(more[0])
    requires ParseItems(more) == Ok((vs, t))
    ensures ParseItems(s) == Ok(([v] + vs, t))
  {
    assert (", " + more)[0] == ',' && (", " + more)[1..] == " " + more;
    SkipWsSpace(more);
  }

  lemma ItemsText(items: seq<Value>, t: string)
    requires |items| > 1
    ensures DumpItems(items) + ("]" + t) ==
            Dumps(items[0]) + (", " + (DumpItems(items[1..]) + ("]" + t)))
  {
    var rest := DumpItems(items[1..]);
    Assoc(Dumps(items[0]), ", " + rest, "]" + t);
    Assoc(", ", rest, "]" + t);
  }

  /** Decoding the encoding of a value, followed by what the encoder may write next, gives the
      value back and stops exactly where its encoding ends. */
  lemma {:induction false} ValueRoundTrip(v: Value, t: string)
    requires WellFormed(v) && Delimiter(t)
    ensures ParseValue(Dumps(v) + t) == Ok((v, t))
    decreases v, 0
  {
    match v
    case Null => NullRoundTrip(t);
    case Bool(b) => BoolRoundTrip(b, t);
    case Int(i) => NumberRoundTrip(i, t);
    case Str(str) => StrRoundTrip(str, t);
    case Arr(items) => ArrayRoundTrip(items, t);
    case Obj(ms) => ObjectRoundTrip(ms, t);
  }

  lemma {:induction false} ArrayRoundTrip(items: seq<Value>, t: string)
    requires ItemsWellFormed(items)
    ensures ParseValue(Dumps(Arr(items)) + t) == Ok((Arr(items), t))
    decreases items, 2
  {
    var body := DumpItems(items) + ("]" + t);
    Assoc(DumpItems(items), "]", t);
    Assoc("[", DumpItems(items) + "]", t);
    assert Dumps(Arr(items)) + t == "[" + body;
    Uncons('[', body);
    if items == [] {
      assert body == "]" + t;
      Uncons(']', t);
    } else {
      DumpItemsStart(items);
      HeadOfAppend(DumpItems(items), "]" + t);
      SkipWsNone(body);
      ItemsRoundTrip(items, t);
    }
  }

  lemma {:induction false} ItemsRoundTrip(items: seq<Value>, t: string)
    requires items != [] && ItemsWellFormed(items)
    ensures ParseItems(DumpItems(items) + ("]" + t)) == Ok((items, t))
    decreases items, 1
  {
    if |items| == 1 {
      assert DumpItems(items) == Dumps(items[0]);
      ValueRoundTrip(items[0], "]" + t);
      ItemsLast(Dumps(items[0]) + ("]" + t), items[0], t);
      assert [items[0]] == items;
    } else {
      var more := DumpItems(items[1..]) + ("]" + t);
      ItemsText(items, t);
      ValueRoundTrip(items[0], ", " + more);
      DumpItemsStart(items[1..]);
      HeadOfAppend(DumpItems(items[1..]), "]" + t);
      ItemsRoundTrip(items[1..], t);
      ItemsNext(Dumps(items[0]) + (", " + more), items[0], more, items[1..], t);
      assert [items[0]] + items[1..] == items;
    }
  }

  /** What follows the first member's value in the encoding of an object. */
  function After(ms: seq<Member>, t: string): string
    requires ms != []
  {
    if |ms| == 1 then "}" + t else ", " + (DumpMembers(ms[1..]) + ("}" + t))
  }

  /** The encoding of a non-empty object body, without its first quote, followed by `t`. */
  function AfterQuote(ms: seq<Member>, t: string): string
    requires ms != []
  {
    Escaped(ms[0].key) + ("\"" + (": " + (Dumps(ms[0].val) + After(ms, t))))
  }

  lemma MemberText(m: Member, a: string)
    ensures DumpMember(m) + a == "\"" + (Escaped(m.key) + ("\"" + (": " + (Dumps(m.val) + a))))
  {
    var e, d := Escaped(m.key), Dumps(m.val);
    Assoc(Quote(m.key), ": " + d, a);
    Assoc(": ", d, a);
    Assoc("\"", e + "\"", (": " + (d + a)));
    Assoc(e, "\"", (": " + (d + a)));
  }

  lemma MembersText(ms: seq<Member>, t: string)
    requires ms != []
    ensures DumpMembers(ms) + ("}" + t) == "\"" + AfterQuote(ms, t)
  {
    var m := ms[0];
    if |ms| > 1 {
      var rest := DumpMembers(ms[1..]);
      Assoc(DumpMember(m), ", " + rest, "}" + t);
      Assoc(", ", rest, "}" + t);
    }
    MemberText(m, After(ms, t));
  }

  lemma MembersHead(x: string, key: string, value: string, v: Value, after: string)
    requires ParseChars(x) == Ok((key, ": " + value))
    requires value != [] && !IsWs(value[0])
    requires ParseValue(value) == Ok((v, after))
    ensures ParseMembers(x) == MoreMembers(Member(key, v), after)
  {
    var r1 := ": " + value;
    assert r1[0] == ':' && r1[1..] == " " + value;
    SkipWsNone(r1);
    SkipWsSpace(value);
  }

  lemma MoreMembersLast(m: Member, t: string)
    ensures MoreMembers(m, "}" + t) == Ok(([m], t))
  {
    Uncons('}', t);
  }

  lemma MoreMembersNext(m: Member, body: string, ms: seq<Member>, t: string)
    requires body != [] && body[0] == '"' && ParseMembers(body[1..]) == Ok((ms, t))
    ensures MoreMembers(m, ", " + body) == Ok(([m] + ms, t))
  {
    assert (", " + body)[0] == ',' && (", " + body)[1..] == " " + body;
    SkipWsSpace(body);
  }

  lemma {:induction false} ObjectRoundTrip(ms: seq<Member>, t: string)
    requires MembersWellFormed(ms)
    ensures ParseValue(Dumps(Obj(ms)) + t) == Ok((Obj(ms), t))
    decreases ms, 2
  {
    var body := DumpMembers(ms) + ("}" + t);
    Assoc(DumpMembers(ms), "}", t);
    Assoc("{", DumpMembers(ms) + "}", t);
    assert Dumps(Obj(ms)) + t == "{" + body;
    Uncons('{', body);
    if ms == [] {
      assert body == "}" + t;
      Uncons('}', t);
    } else {
      MembersText(ms, t);
      Uncons('"', AfterQuote(ms, t));
      MembersRoundTrip(ms, t);
      DictDistinct(ms);
    }
  }

  lemma {:induction false} MembersRoundTrip(ms: seq<Member>, t: string)
    requires ms != [] && MembersWellFormed(ms)
    ensures ParseMembers(AfterQuote(ms, t)) == Ok((ms, t))
    decreases ms, 1
  {
    var m := ms[0];
    var after := After(ms, t);
    var value := Dumps(m.val) + after;
    var x := AfterQuote(ms, t);
    assert x == Escaped(m.key) + ("\"" + (": " + value));
    CharsRoundTrip(m.key, ": " + value);
    DumpsStart(m.val);
    HeadOfAppend(Dumps(m.val), after);
    ValueRoundTrip(m.val, after);
    MembersHead(x, m.key, value, m.val, after);
    assert ParseMembers(x) == MoreMembers(m, after);
    if |ms| == 1 {
      assert after == "}" + t;
      MoreMembersLast(m, t);
      assert [m] == ms;
    } else {
      var body := DumpMembers(ms[1..]) + ("}" + t);
      MembersText(ms[1..], t);
      Uncons('"', AfterQuote(ms[1..], t));
      MembersRoundTrip(ms[1..], t);
      assert after == ", " + body;
      MoreMembersNext(m, body, ms[1..], t);
      assert [m] + ms[1..] == ms;
    }
  }

  /** `json.loads(json.dumps(v)) == v` for every value Python can hold. */
  lemma LoadsDumps(v: Value)
    requires WellFormed(v)
    ensures Loads(Dumps(v)) == Ok(v)
  {
    DumpsStart(v);
    SkipWsNone(Dumps(v));
    ValueRoundTrip(v, "");
    assert Dumps(v) + "" == Dumps(v);
  }
}
