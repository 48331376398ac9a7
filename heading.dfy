/** The section-heading test of the menu parser
    (`_is_section_heading`, src/application/use_cases/parse_menu.py). */
module Heading {
  import opened Strings

  /** `any(ch.islower() for ch in text)` */
  predicate HasLower(s: string) {
    exists i :: 0 <= i < |s| && IsLower(s[i])
  }

  /** `s.islower()`: some cased character, and every cased one lower case. */
  predicate StrIsLower(s: string) {
    HasLower(s) && forall i :: 0 <= i < |s| ==> !IsUpper(s[i])
  }

  /** `w[:1].isupper() and w[1:].islower()` */
  predicate IsTitleWord(w: string) {
    |w| > 0 && IsUpper(w[0]) && StrIsLower(w[1..])
  }

  /** The Title-Case carve-out: two or more words, each a title word. */
  predicate IsTitleCase(text: string) {
    var ws := Words(text);
    |ws| >= 2 && forall k :: 0 <= k < |ws| ==> IsTitleWord(ws[k])
  }

  /** `[\$€£]\s*\d` matches at index `i`. */
  predicate CurrencyDigitAt(s: string, i: nat) {
    i < |s| && IsCurrency(s[i]) &&
    var j := i + 1 + SpaceRun(s, i + 1);
    j < |s| && IsDigit(s[j])
  }

  /** `re.search(r"[\$€£]\s*\d", s)` */
  predicate HasCurrencyDigit(s: string) {
    exists i: nat :: i < |s| && CurrencyDigitAt(s, i)
  }

  /** `\d+\s*[.,]?\d{0,2}$` matches from index `k` to the end of `s`.  The
      digit and whitespace runs are taken whole: giving back a digit or a
      space never lets the rest of the pattern reach the end.  (`$` is read
      as the end of `s`; the strings tested here are stripped, so the
      trailing-newline reading of `$` never applies.) */
  predicate NumberSuffixAt(s: string, k: nat) {
    k < |s| && IsDigit(s[k]) &&
    var p := k + DigitRun(s, k) + SpaceRun(s, k + DigitRun(s, k));
    (|s| - p <= 2 && AllDigits(s[p..])) ||
    (p < |s| && IsDecimalSep(s[p]) && |s| - p - 1 <= 2 && AllDigits(s[p + 1..]))
  }

  /** `re.search(r"\d+\s*[.,]?\d{0,2}$", s)` */
  predicate EndsWithNumber(s: string) {
    exists k: nat :: k < |s| && NumberSuffixAt(s, k)
  }

  /** `_is_section_heading(line)` */
  function IsSectionHeading(line: string): (r: bool)
    ensures r ==> |Strip(line)| >= 3
    ensures r && HasLower(Strip(line)) ==> IsTitleCase(Strip(line))
    ensures r ==> !HasCurrencyDigit(Strip(line)) && !EndsWithNumber(Strip(line))
  {
    var text := Strip(line);
    if |text| < 3 then false
    else if HasLower(text) && !IsTitleCase(text) then false
    else if HasCurrencyDigit(text) then false
    else if EndsWithNumber(text) then false
    else true
  }

  /** A line whose stripped text is at least three characters long and has
      neither a lower-case letter nor a digit is a heading: single all-caps
      words such as "STARTERS" qualify. */
  lemma CapsWithoutDigitsIsHeading(line: string)
    requires |Strip(line)| >= 3 && !HasLower(Strip(line)) && !HasDigit(Strip(line))
    ensures IsSectionHeading(line)
  {
  }

  /** The price rule wins over casing: a line whose stripped text ends in a
      digit, or in a digit and a decimal separator, is never a heading. */
  lemma PriceSuffixIsNotHeading(line: string)
    requires var t := Strip(line);
      (|t| >= 1 && IsDigit(t[|t| - 1])) ||
      (|t| >= 2 && IsDecimalSep(t[|t| - 1]) && IsDigit(t[|t| - 2]))
    ensures !IsSectionHeading(line)
  {
    var t := Strip(line);
    if IsDigit(t[|t| - 1]) {
      assert NumberSuffixAt(t, |t| - 1);
    } else {
      assert DigitRun(t, |t| - 2) == 1;
      assert SpaceRun(t, |t| - 1) == 0;
      assert NumberSuffixAt(t, |t| - 2);
    }
  }

  /** Whitespace inside the kept part of a stripped string is untouched. */
  lemma SpaceRunInside(s: string, lo: nat, hi: nat, i: nat)
    requires lo <= i <= hi <= |s|
    requires i + SpaceRun(s, i) < hi
    ensures SpaceRun(s[lo..hi], i - lo) == SpaceRun(s, i)
    decreases hi - i
  {
    if IsSpace(s[i]) {
      SpaceRunInside(s, lo, hi, i + 1);
    }
  }

  /** A currency sign followed, after optional whitespace, by a digit is
      still there once surrounding whitespace is cut off. */
  lemma CurrencyDigitInside(line: string, i: nat, lo: nat, hi: nat) returns (k: nat)
    requires CurrencyDigitAt(line, i)
    requires lo <= hi <= |line|
    requires forall x :: 0 <= x < lo ==> IsSpace(line[x])
    requires forall x :: hi <= x < |line| ==> IsSpace(line[x])
    ensures CurrencyDigitAt(line[lo..hi], k)
  {
    var j := i + 1 + SpaceRun(line, i + 1);
    assert !IsSpace(line[i]) && !IsSpace(line[j]);
    assert lo <= i < j < hi;
    SpaceRunInside(line, lo, hi, i + 1);
    var t := line[lo..hi];
    assert t[i - lo] == line[i] && t[j - lo] == line[j];
    k := i - lo;
  }

  /** So such a line is never a heading, whatever its casing. */
  lemma CurrencyBeforeDigitIsNotHeading(line: string, i: nat)
    requires CurrencyDigitAt(line, i)
    ensures !IsSectionHeading(line)
  {
    var lo, hi := StripByShape(line, Spaces);
    var k := CurrencyDigitInside(line, i, lo, hi);
    assert HasCurrencyDigit(Strip(line));
  }

  /** A line whose stripped text starts with a lower-case letter is never a
      heading: its first word is not a title word. */
  lemma LowerStartIsNotHeading(line: string)
    requires Strip(line) != [] && IsLower(Strip(line)[0])
    ensures !IsSectionHeading(line)
  {
    var t := Strip(line);
    WordsHead(t);
    assert !IsTitleWord(Words(t)[0]);
  }

  /** Two title words without digits, one space apart, form a heading: the
      Title-Case carve-out accepts an ordinary two-word dish name. */
  lemma TitlePairIsHeading(a: string, b: string)
    requires IsToken(a) && IsToken(b) && IsTitleWord(a) && IsTitleWord(b)
    requires !HasDigit(a) && !HasDigit(b)
    ensures IsSectionHeading(a + " " + b)
  {
    var s := a + " " + b;
    PairStripped(a, b);
    WordsOfPair(a, b);
    PairTitleCase(s, a, b);
    PairNoDigit(a, b);
    NoDigitHeading(s);
  }

  /** A capital followed by at least one lower-case letter, and nothing
      else, is a title word with no digit and no whitespace. */
  lemma LettersTitleWord(w: string)
    requires |w| >= 2 && IsUpper(w[0])
    requires forall i :: 1 <= i < |w| ==> IsLower(w[i])
    ensures IsToken(w) && IsTitleWord(w) && !HasDigit(w)
  {
    assert IsLower(w[1..][0]);
    forall i | 1 <= i < |w| ensures !IsUpper(w[i]) && !IsDigit(w[i]) && !IsSpace(w[i]) {
      assert IsLower(w[i]);
    }
    forall i | 0 <= i < |w| - 1 ensures !IsUpper(w[1..][i]) {
      assert w[1..][i] == w[i + 1];
    }
  }

  lemma PairTitleCase(s: string, a: string, b: string)
    requires Words(s) == [a, b] && IsTitleWord(a) && IsTitleWord(b)
    ensures IsTitleCase(s)
  {
  }

  /** A line that is its own strip, at least three characters long, without
      digits, and Title-Case whenever it has a lower-case letter, is a
      heading. */
  lemma NoDigitHeading(s: string)
    requires Strip(s) == s && |s| >= 3 && !HasDigit(s)
    requires HasLower(s) ==> IsTitleCase(s)
    ensures IsSectionHeading(s)
  {
  }

  lemma PairStripped(a: string, b: string)
    requires IsToken(a) && IsToken(b)
    ensures Strip(a + " " + b) == a + " " + b
  {
    var s := a + " " + b;
    assert s[0] == a[0] && s[|s| - 1] == b[|b| - 1];
    assert TrimStart(s, Spaces, 0) == 0;
    assert TrimEnd(s, Spaces, 0, |s|) == |s|;
    assert s[0..|s|] == s;
  }

  lemma PairNoDigit(a: string, b: string)
    requires !HasDigit(a) && !HasDigit(b)
    ensures !HasDigit(a + " " + b)
  {
    var s := a + " " + b;
    forall i | 0 <= i < |s| ensures !IsDigit(s[i]) {
      if i < |a| { assert s[i] == a[i]; }
      else if i > |a| { assert s[i] == b[i - |a| - 1]; }
    }
  }
}
