/**
 Shared vocabulary of the model: optional values and results, and the few
 pieces of JavaScript string semantics the load generator relies on
 (`split`, `indexOf`, `slice`, `parseInt`, the `\w` and `\d` classes).
 */
module Common {

  datatype Option<T> = None | Some(value: T)

  datatype Result<T, E> = Success(value: T) | Failure(error: E)

  // ---------------------------------------------------------------------
  // Character classes

  /** JavaScript's `\d`. */
  predicate IsDigit(c: char) {
    '0' <= c <= '9'
  }

  /** JavaScript's `\w`. */
  predicate IsWordChar(c: char) {
    'a' <= c <= 'z' || 'A' <= c <= 'Z' || IsDigit(c) || c == '_'
  }

  /** The characters `parseInt` skips before the number (StrWhiteSpaceChar, without the
      remaining Unicode space separators). */
  predicate IsJsSpace(c: char) {
    c == ' ' || c == '\t' || c == '\n' || c == '\r' || c == '\U{0B}' || c == '\U{0C}'
    || c == '\U{A0}' || c == '\U{FEFF}' || c == '\U{2028}' || c == '\U{2029}'
  }

  /** `s.match(/\w+/)` succeeds. */
  predicate HasWordChar(s: string) {
    exists i :: 0 <= i < |s| && IsWordChar(s[i])
  }

  predicate AllDigits(s: string) {
    forall i :: 0 <= i < |s| ==> IsDigit(s[i])
  }

  // ---------------------------------------------------------------------
  // Maximal runs, as a greedy `\d+` or `\w+` captures them

  /** Length of the longest prefix of `s` made of digits. */
  function DigitRun(s: string): (n: nat)
    ensures n <= |s|
    ensures AllDigits(s[..n])
    ensures n < |s| ==> !IsDigit(s[n])
  {
    if |s| == 0 || !IsDigit(s[0]) then 0
    else
      var n := 1 + DigitRun(s[1..]);
      assert s[..n] == [s[0]] + s[1..][..n - 1];
      n
  }

  /** Length of the longest prefix of `s` made of word characters. */
  function WordRun(s: string): (n: nat)
    ensures n <= |s|
    ensures forall i :: 0 <= i < n ==> IsWordChar(s[i])
    ensures n < |s| ==> !IsWordChar(s[n])
  {
    if |s| == 0 || !IsWordChar(s[0]) then 0 else 1 + WordRun(s[1..])
  }

  // ---------------------------------------------------------------------
  // Decimal numbers

  function DigitValue(c: char): nat
    requires IsDigit(c)
  {
    (c as int - '0' as int) as nat
  }

  function DigitChar(d: nat): (c: char)
    requires d < 10
    ensures IsDigit(c) && DigitValue(c) == d
  {
    (d + '0' as int) as char
  }

  /** The value of a string of decimal digits, most significant first. */
  function DigitsValue(s: string): nat
    requires AllDigits(s)
  {
    if |s| == 0 then 0 else DigitsValue(s[..|s| - 1]) * 10 + DigitValue(s[|s| - 1])
  }

  /** The shortest decimal spelling of `n` (what `String(n)` produces). */
  function DecimalString(n: nat): (s: string)
    ensures |s| > 0 && AllDigits(s)
    ensures |s| > 1 ==> s[0] != '0'
  {
    if n < 10 then [DigitChar(n)] else DecimalString(n / 10) + [DigitChar(n % 10)]
  }

  lemma {:induction false} DecimalStringValue(n: nat)
    ensures DigitsValue(DecimalString(n)) == n
  {
    if n >= 10 {
      var s := DecimalString(n);
      assert s[..|s| - 1] == DecimalString(n / 10);
      DecimalStringValue(n / 10);
    }
  }

  lemma DigitRunOfDigits(s: string)
    requires AllDigits(s)
    ensures DigitRun(s) == |s|
  {
  }

  lemma ConcatAssoc<T>(a: seq<T>, b: seq<T>, c: seq<T>)
    ensures a + b + c == a + (b + c)
  {
  }

  /** What may follow a number so that a greedy `\d+` stops at its end. */
  predicate NotDigitLed(rest: string) {
    |rest| == 0 || !IsDigit(rest[0])
  }

  /** A run of digits followed by a non-digit is read exactly to its end. */
  lemma {:induction false} DigitRunThen(s: string, rest: string)
    requires AllDigits(s) && NotDigitLed(rest)
    ensures DigitRun(s + rest) == |s|
  {
    if |s| > 0 {
      assert (s + rest)[0] == s[0];
      assert (s + rest)[1..] == s[1..] + rest;
      DigitRunThen(s[1..], rest);
    }
  }

  /** The decimal spelling of `n`, followed by a non-digit, reads back as `n`. */
  lemma ReadsDecimal(n: nat, rest: string)
    requires NotDigitLed(rest)
    ensures var t := DecimalString(n) + rest;
      DigitRun(t) == |DecimalString(n)| && DigitsValue(t[..DigitRun(t)]) == n
  {
    var s := DecimalString(n);
    DigitRunThen(s, rest);
    assert (s + rest)[..|s|] == s;
    DecimalStringValue(n);
  }

  /** JavaScript `parseInt(s, 10)`: skip leading white space, take an optional sign and the
      longest run of digits after it; no digits at all is `NaN`, here `None`. */
  function JsParseInt(s: string): (r: Option<int>)
    decreases |s|
  {
    if |s| > 0 && IsJsSpace(s[0]) then JsParseInt(s[1..])
    else
      var neg := |s| > 0 && s[0] == '-';
      var body := if |s| > 0 && (s[0] == '-' || s[0] == '+') then s[1..] else s;
      var n := DigitRun(body);
      if n == 0 then None
      else if neg then Some(-(DigitsValue(body[..n]) as int))
      else Some(DigitsValue(body[..n]))
  }

  lemma ParseIntOfDecimal(n: nat)
    ensures JsParseInt(DecimalString(n)) == Some(n)
  {
    var s := DecimalString(n);
    DigitRunOfDigits(s);
    assert s[..|s|] == s;
    DecimalStringValue(n);
  }

  lemma ParseIntOfNegative(n: nat)
    requires n > 0
    ensures JsParseInt("-" + DecimalString(n)) == Some(-(n as int))
  {
    var s := "-" + DecimalString(n);
    assert s[1..] == DecimalString(n);
    ParseIntOfDecimal(n);
  }

  // ---------------------------------------------------------------------
  // Searching and slicing

  /** `s.startsWith(p)`, also the meaning of a regular expression anchored with `^`. */
  predicate StartsWith(s: string, p: string) {
    |p| <= |s| && s[..|p|] == p
  }

  /** `s.indexOf(c)` when it is not -1. */
  function IndexOf<T(==)>(s: seq<T>, c: T): (r: Option<nat>)
    ensures r.Some? ==> r.value < |s| && s[r.value] == c && c !in s[..r.value]
    ensures r.None? <==> c !in s
  {
    if |s| == 0 then None
    else if s[0] == c then Some(0)
    else match IndexOf(s[1..], c)
      case None => None
      case Some(k) =>
        assert s[..k + 1] == [s[0]] + s[1..][..k];
        Some(k + 1)
  }

  /** `s.lastIndexOf(c)` when it is not -1. */
  function LastIndexOf<T(==)>(s: seq<T>, c: T): (r: Option<nat>)
    ensures r.Some? ==> r.value < |s| && s[r.value] == c && c !in s[r.value + 1..]
    ensures r.None? <==> c !in s
  {
    if |s| == 0 then None
    else if s[|s| - 1] == c then Some(|s| - 1)
    else
      var r := LastIndexOf(s[..|s| - 1], c);
      assert r.Some? ==> s[r.value + 1..] == s[..|s| - 1][r.value + 1..] + [s[|s| - 1]];
      assert s == s[..|s| - 1] + [s[|s| - 1]];
      r
  }

  /** `p` occurs in `s` at position `i`. */
  predicate OccursAt(s: string, p: string, i: int) {
    0 <= i && i + |p| <= |s| && s[i..i + |p|] == p
  }

  /** `s.indexOf(p)` for a non-empty pattern, when it is not -1. */
  function FindSub(s: string, p: string, from: nat := 0): (r: Option<nat>)
    requires |p| > 0
    requires from <= |s|
    ensures r.Some? ==> from <= r.value && OccursAt(s, p, r.value)
    ensures r.Some? ==> forall k :: from <= k < r.value ==> !OccursAt(s, p, k)
    ensures r.None? ==> forall k :: from <= k ==> !OccursAt(s, p, k)
    decreases |s| - from
  {
    if from + |p| > |s| then None
    else if s[from..from + |p|] == p then Some(from)
    else FindSub(s, p, from + 1)
  }

  /** JavaScript `s.slice(start, end)`: negative positions count from the end, positions are
      clamped to the string, and a start beyond the end gives the empty sequence. */
  function JsSlice<T>(s: seq<T>, start: int, end: int): (r: seq<T>)
    ensures |r| <= |s|
  {
    var b := if start < 0 then Max(0, |s| + start) else Min(start, |s|);
    var e := if end < 0 then Max(0, |s| + end) else Min(end, |s|);
    if b < e then s[b..e] else []
  }

  function Min(a: int, b: int): int { if a <= b then a else b }

  function Max(a: int, b: int): int { if a <= b then b else a }

  // ---------------------------------------------------------------------
  // Splitting text into lines

  /** Concatenation of `parts` with `sep` between neighbours. */
  function Join(parts: seq<string>, sep: char): string {
    if |parts| == 0 then ""
    else if |parts| == 1 then parts[0]
    else parts[0] + [sep] + Join(parts[1..], sep)
  }

  /** JavaScript `s.split(sep)` for a one-character separator: the separator-free pieces,
      at least one, which joined back with `sep` give `s`. */
  function Split(s: string, sep: char): (parts: seq<string>)
    ensures |parts| >= 1
    ensures forall k :: 0 <= k < |parts| ==> sep !in parts[k]
    ensures Join(parts, sep) == s
    decreases |s|
  {
    match IndexOf(s, sep)
    case None => [s]
    case Some(i) =>
      var rest := Split(s[i + 1..], sep);
      var parts := [s[..i]] + rest;
      assert parts[1..] == rest;
      assert s == s[..i] + [sep] + s[i + 1..];
      parts
  }
}
