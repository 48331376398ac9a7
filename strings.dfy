/** Character classes and the handful of Python `str` operations the menu
    parser and the text utilities rely on (`strip`, `split`, `find`, `join`,
    `lower`, `upper`, `replace`).

    The character alphabet is restricted: letters are ASCII letters and the
    basic Cyrillic block U+0400..U+045F, digits are ASCII digits, and
    whitespace is the ASCII part of the set Python's `str.isspace` accepts.
    Outside that alphabet a character is treated as neither letter, digit
    nor whitespace.
 */
module Strings {

  datatype Option<T> = None | Some(value: T)

  /** The characters `str.isspace()`, `str.strip()`, `str.split()` and the
      regular-expression class `\s` treat as whitespace, within the ASCII
      range: space, U+0009..U+000D and U+001C..U+001F. */
  predicate IsSpace(c: char) {
    c == ' ' || '\t' <= c <= '\r' || '\U{1C}' <= c <= '\U{1F}'
  }

  predicate IsDigit(c: char) { '0' <= c <= '9' }
  predicate IsUpper(c: char) { 'A' <= c <= 'Z' || '\U{400}' <= c <= '\U{42F}' }
  predicate IsLower(c: char) { 'a' <= c <= 'z' || '\U{430}' <= c <= '\U{45F}' }
  predicate IsLetter(c: char) { IsUpper(c) || IsLower(c) }
  /** The class `\w`: letters, digits and the underscore. */
  predicate IsWord(c: char) { IsLetter(c) || IsDigit(c) || c == '_' }

  /** The class `[.,]` of the price patterns. */
  predicate IsDecimalSep(c: char) { c == '.' || c == ',' }

  /** The currency signs of the price patterns: `$`, `€` and `£`. */
  predicate IsCurrency(c: char) { c == '$' || c == '\U{20AC}' || c == '\U{A3}' }

  /** One of the currency signs occurs in `s`. */
  predicate HasCurrencySign(s: string) {
    '$' in s || '\U{20AC}' in s || '\U{A3}' in s
  }

  predicate HasDigit(s: string) { exists i :: 0 <= i < |s| && IsDigit(s[i]) }
  predicate AllDigits(s: string) { forall i :: 0 <= i < |s| ==> IsDigit(s[i]) }
  predicate IsBlank(s: string) { forall i :: 0 <= i < |s| ==> IsSpace(s[i]) }

  function UpperChar(c: char): char {
    if 'a' <= c <= 'z' || '\U{430}' <= c <= '\U{44F}' then (c as int - 32) as char
    else if '\U{450}' <= c <= '\U{45F}' then (c as int - 80) as char
    else c
  }

  function LowerChar(c: char): char {
    if 'A' <= c <= 'Z' || '\U{410}' <= c <= '\U{42F}' then (c as int + 32) as char
    else if '\U{400}' <= c <= '\U{40F}' then (c as int + 80) as char
    else c
  }

  /** `str.upper()` and `str.lower()` on the declared alphabet. */
  function Upper(s: string): string {
    seq(|s|, i requires 0 <= i < |s| => UpperChar(s[i]))
  }

  function Lower(s: string): string {
    seq(|s|, i requires 0 <= i < |s| => LowerChar(s[i]))
  }

  lemma UpperIdempotent(s: string)
    ensures Upper(Upper(s)) == Upper(s)
  {
    assert forall i :: 0 <= i < |s| ==> UpperChar(UpperChar(s[i])) == UpperChar(s[i]);
  }

  /** `s.startswith(p)` */
  predicate StartsWith(s: string, p: string) {
    |p| <= |s| && s[..|p|] == p
  }

  /** The two character sets the source strips: whitespace (`strip()`) and
      the name marks of `strip(" -:·.")`. */
  datatype Trim = Spaces | NameMarks

  predicate Trimmed(t: Trim, c: char) {
    match t
    case Spaces => IsSpace(c)
    case NameMarks => c == ' ' || c == '-' || c == ':' || c == '\U{B7}' || c == '.'
  }

  /** The first index at or after `i` that is not in the trimmed set, or
      `|s|`. */
  function TrimStart(s: string, t: Trim, i: nat): (k: nat)
    requires i <= |s|
    ensures i <= k <= |s|
    ensures forall j :: i <= j < k ==> Trimmed(t, s[j])
    ensures k == |s| || !Trimmed(t, s[k])
    decreases |s| - i
  {
    if i < |s| && Trimmed(t, s[i]) then TrimStart(s, t, i + 1) else i
  }

  /** The end of `s[lo..j]` once its trailing trimmed characters are
      dropped. */
  function TrimEnd(s: string, t: Trim, lo: nat, j: nat): (k: nat)
    requires lo <= j <= |s|
    ensures lo <= k <= j
    ensures forall m :: k <= m < j ==> Trimmed(t, s[m])
    ensures k == lo || !Trimmed(t, s[k - 1])
    decreases j
  {
    if lo < j && Trimmed(t, s[j - 1]) then TrimEnd(s, t, lo, j - 1) else j
  }

  /** `s.strip(chars)` for the set `t`. */
  function StripBy(s: string, t: Trim): string {
    var lo := TrimStart(s, t, 0);
    s[lo..TrimEnd(s, t, lo, |s|)]
  }

  /** `s.strip()`, `s.lstrip()` and `s.rstrip()` */
  function Strip(s: string): string { StripBy(s, Spaces) }
  function LStrip(s: string): string { s[TrimStart(s, Spaces, 0)..] }
  function RStrip(s: string): string { s[..TrimEnd(s, Spaces, 0, |s|)] }

  /** Stripping a string leaves a contiguous piece of it that neither begins
      nor ends with a stripped character, and removes only such characters. */
  lemma StripByShape(s: string, t: Trim) returns (lo: nat, hi: nat)
    ensures lo <= hi <= |s| && StripBy(s, t) == s[lo..hi]
    ensures forall i :: 0 <= i < lo ==> Trimmed(t, s[i])
    ensures forall i :: hi <= i < |s| ==> Trimmed(t, s[i])
    ensures lo < hi ==> !Trimmed(t, s[lo]) && !Trimmed(t, s[hi - 1])
  {
    lo := TrimStart(s, t, 0);
    hi := TrimEnd(s, t, lo, |s|);
  }

  /** `s.strip()` is empty exactly when `s` is blank. */
  lemma StripEmptyIffBlank(s: string)
    ensures Strip(s) == [] <==> IsBlank(s)
  {
    var lo, hi := StripByShape(s, Spaces);
    if Strip(s) == [] {
      assert lo == hi;
      forall i | 0 <= i < |s| ensures IsSpace(s[i]) {
        if i >= lo { assert i >= hi; }
      }
    } else {
      assert !IsSpace(s[lo]);
    }
  }

  /** Stripping twice is stripping once. */
  lemma StripByIdempotent(s: string, t: Trim)
    ensures StripBy(StripBy(s, t), t) == StripBy(s, t)
  {
    var u := StripBy(s, t);
    var lo, hi := StripByShape(s, t);
    var lo2, hi2 := StripByShape(u, t);
    if lo < hi {
      assert !Trimmed(t, u[0]) && !Trimmed(t, u[|u| - 1]);
      assert lo2 == 0;
      assert hi2 == |u|;
      assert u[0..|u|] == u;
    } else {
      assert u == [];
    }
  }

  /** The length of the run of whitespace starting at index `i`. */
  function SpaceRun(s: string, i: nat): (n: nat)
    requires i <= |s|
    ensures i + n <= |s|
    ensures forall k :: i <= k < i + n ==> IsSpace(s[k])
    ensures i + n == |s| || !IsSpace(s[i + n])
    decreases |s| - i
  {
    if i < |s| && IsSpace(s[i]) then 1 + SpaceRun(s, i + 1) else 0
  }

  /** The length of the run of non-whitespace starting at index `i`. */
  function WordRun(s: string, i: nat): (n: nat)
    requires i <= |s|
    ensures i + n <= |s|
    ensures forall k :: i <= k < i + n ==> !IsSpace(s[k])
    ensures i + n == |s| || IsSpace(s[i + n])
    decreases |s| - i
  {
    if i < |s| && !IsSpace(s[i]) then 1 + WordRun(s, i + 1) else 0
  }

  /** The length of the run of digits starting at index `i`. */
  function DigitRun(s: string, i: nat): (n: nat)
    requires i <= |s|
    ensures i + n <= |s|
    ensures forall k :: i <= k < i + n ==> IsDigit(s[k])
    ensures i + n == |s| || !IsDigit(s[i + n])
    decreases |s| - i
  {
    if i < |s| && IsDigit(s[i]) then 1 + DigitRun(s, i + 1) else 0
  }

  /** `s.split()` with no argument: the maximal runs of non-whitespace. */
  function Words(s: string): (ws: seq<string>)
    ensures forall k :: 0 <= k < |ws| ==> IsToken(ws[k])
    decreases |s|
  {
    var t := LStrip(s);
    if t == [] then []
    else
      var n := WordRun(t, 0);
      assert n >= 1 by { assert !IsSpace(t[0]); }
      assert IsToken(t[..n]);
      [t[..n]] + Words(t[n..])
  }

  /** A string that does not start with whitespace begins with its first
      word. */
  lemma WordsHead(s: string)
    requires s != [] && !IsSpace(s[0])
    ensures |Words(s)| >= 1 && Words(s)[0][0] == s[0]
  {
    assert TrimStart(s, Spaces, 0) == 0;
    assert LStrip(s) == s;
  }

  /** A token has no whitespace, so it is one whole word run. */
  lemma TokenRun(s: string, w: string)
    requires IsToken(w) && StartsWith(s, w) && (|s| == |w| || IsSpace(s[|w|]))
    ensures WordRun(s, 0) == |w|
  {
    TokenRunFrom(s, w, 0);
  }

  lemma TokenRunFrom(s: string, w: string, i: nat)
    requires IsToken(w) && StartsWith(s, w) && (|s| == |w| || IsSpace(s[|w|])) && i <= |w|
    ensures WordRun(s, i) == |w| - i
    decreases |w| - i
  {
    if i < |w| {
      assert s[i] == w[i];
      TokenRunFrom(s, w, i + 1);
    }
  }

  /** Two tokens joined by one space split into exactly those two words. */
  lemma WordsOfPair(a: string, b: string)
    requires IsToken(a) && IsToken(b)
    ensures Words(a + " " + b) == [a, b]
  {
    var s := a + " " + b;
    assert TrimStart(s, Spaces, 0) == 0;
    assert LStrip(s) == s;
    assert s[..|a|] == a;
    TokenRun(s, a);
    assert s[..|a|] == a;
    var rest := s[|a|..];
    assert rest == " " + b;
    assert TrimStart(rest, Spaces, 1) == 1;
    assert TrimStart(rest, Spaces, 0) == 1;
    assert LStrip(rest) == b;
    assert b[..|b|] == b;
    TokenRun(b, b);
    assert b[|b|..] == [];
    assert Words(b[|b|..]) == [];
    assert Words(b) == [b];
    assert Words(rest) == Words(b);
    assert Words(s) == [a] + Words(rest);
  }

  /** A non-empty string without whitespace. */
  predicate IsToken(w: string) {
    w != [] && forall j :: 0 <= j < |w| ==> !IsSpace(w[j])
  }

  /** `s.find(sub, i)` restricted to indexes from `i`: the first position at
      or after `i` where `sub` occurs, or -1. */
  function FindFrom(s: string, sub: string, i: nat): (k: int)
    ensures k == -1 || (i <= k && OccursAt(s, sub, k))
    ensures forall j :: i <= j && (k == -1 || j < k) ==> !OccursAt(s, sub, j)
    decreases |s| - i
  {
    if i + |sub| > |s| then -1
    else if s[i..i + |sub|] == sub then i
    else FindFrom(s, sub, i + 1)
  }

  predicate OccursAt(s: string, sub: string, j: int) {
    0 <= j && j + |sub| <= |s| && s[j..j + |sub|] == sub
  }

  /** `s.find(sub)` */
  function Find(s: string, sub: string): int { FindFrom(s, sub, 0) }

  /** `find` gives the first occurrence. */
  lemma FindFirst(s: string, sub: string, k: nat)
    requires OccursAt(s, sub, k) && forall j :: 0 <= j < k ==> !OccursAt(s, sub, j)
    ensures Find(s, sub) == k
  {
  }

  /** `sub in s` */
  predicate Contains(s: string, sub: string) { Find(s, sub) >= 0 }

  /** `s[:k]` with Python's reading of a negative `k`. */
  function SliceTo(s: string, k: int): string {
    if k >= 0 then s[..if k <= |s| then k else |s|]
    else s[..if |s| + k >= 0 then |s| + k else 0]
  }

  /** `sep.join(parts)` */
  function Join(sep: string, parts: seq<string>): string
    decreases |parts|
  {
    if |parts| == 0 then ""
    else if |parts| == 1 then parts[0]
    else parts[0] + sep + Join(sep, parts[1..])
  }

  /** `s.replace(a, b)` for single characters. */
  function ReplaceChar(s: string, a: char, b: char): string {
    seq(|s|, i requires 0 <= i < |s| => if s[i] == a then b else s[i])
  }

  /** `s.replace(c, "")` */
  function RemoveChar(s: string, c: char): (r: string)
    ensures c !in r
    ensures |r| <= |s|
  {
    if s == [] then []
    else (if s[0] == c then [] else [s[0]]) + RemoveChar(s[1..], c)
  }

  /** Index of the first occurrence of `c`, if any. */
  function IndexOf(s: string, c: char): (k: Option<nat>)
    ensures k.Some? ==> k.value < |s| && s[k.value] == c && c !in s[..k.value]
    ensures k.None? ==> c !in s
  {
    if s == [] then None
    else if s[0] == c then Some(0)
    else match IndexOf(s[1..], c) {
      case None => None
      case Some(j) => assert s[..j + 1] == [s[0]] + s[1..][..j]; Some(j + 1)
    }
  }

  /** `s.split(c, 1)[1]` when `c` occurs in `s`, and `s.split(c, 1)[-1]` in
      general: everything after the first `c`, or all of `s` when there is
      none. */
  function AfterFirst(s: string, c: char): string {
    match IndexOf(s, c)
    case Some(k) => s[k + 1..]
    case None => s
  }

  /** A string of decimal digits as a number. */
  function DigitsValue(ds: string): nat
    requires AllDigits(ds)
    decreases |ds|
  {
    if ds == [] then 0
    else 10 * DigitsValue(ds[..|ds| - 1]) + (ds[|ds| - 1] as int - '0' as int)
  }

  function Pow10(n: nat): (p: nat)
    ensures p >= 1
  {
    if n == 0 then 1 else 10 * Pow10(n - 1)
  }

  /** `float(s)` for decimal notation: surrounding whitespace, an optional
      sign, then `D+`, `D+.D*` or `.D+`.  Exponents, `inf`, `nan` and digit
      separators are not covered. */
  function ParseDecimal(s: string): Option<real> {
    var t := Strip(s);
    if |t| > 0 && (t[0] == '-' || t[0] == '+') then
      match ParseUnsigned(t[1..])
      case Some(v) => Some(if t[0] == '-' then -v else v)
      case None => None
    else ParseUnsigned(t)
  }

  /** `D+`, `D+.D*` or `.D+` as an exact number. */
  function ParseUnsigned(body: string): Option<real> {
    var n := DigitRun(body, 0);
    if n == |body| then
      if n > 0 then Some(DigitsValue(body) as real) else None
    else if body[n] == '.' && AllDigits(body[n + 1..]) && (n > 0 || n + 1 < |body|) then
      Some(DecimalValue(body[..n], body[n + 1..]))
    else None
  }

  /** The number whose integer digits are `whole` and fraction digits `frac`. */
  function DecimalValue(whole: string, frac: string): real
    requires AllDigits(whole) && AllDigits(frac)
  {
    DigitsValue(whole) as real + DigitsValue(frac) as real / Pow10(|frac|) as real
  }
}
