/** The line and text utilities of src/presentation/utils/text_utils.py:
    order-preserving de-duplication (`unique_lines`), rewriting of `дата:`
    lines into ISO dates (`normalize_dates`) and cleaning of a document
    number line (`clean_doc_number`).

    `datetime.strptime` followed by `strftime("%Y-%m-%d")` is a parameter,
    `strptime`, taking the date text and a format and giving the ISO text or
    nothing. */
module TextUtils {
  import opened Strings

  // ----- unique_lines (lines 87-94) -----

  /** The distinct lines of `ls`, each at its first occurrence. */
  function Distinct(ls: seq<string>): (r: seq<string>)
    ensures |r| <= |ls|
    decreases |ls|
  {
    if ls == [] then []
    else
      var r := Distinct(ls[..|ls| - 1]);
      if ls[|ls| - 1] in r then r else r + [ls[|ls| - 1]]
  }

  predicate NoDuplicates(r: seq<string>) {
    forall i, j :: 0 <= i < j < |r| ==> r[i] != r[j]
  }

  /** The index of the first occurrence of `x`. */
  function FirstIndex(ls: seq<string>, x: string): (k: nat)
    requires x in ls
    ensures k < |ls| && ls[k] == x
    ensures forall j :: 0 <= j < k ==> ls[j] != x
  {
    if ls[0] == x then 0 else 1 + FirstIndex(ls[1..], x)
  }

  lemma FirstIndexSnoc(ls: seq<string>, x: string, y: string)
    requires y in ls
    ensures FirstIndex(ls + [x], y) == FirstIndex(ls, y)
  {
    var a, b := FirstIndex(ls + [x], y), FirstIndex(ls, y);
    assert (ls + [x])[b] == y;
    assert a <= b < |ls|;
    assert ls[a] == (ls + [x])[a];
  }

  /** The output has no repeated line, holds exactly the lines of the
      input, and lists them in the order of their first occurrences. */
  lemma DistinctSpec(ls: seq<string>)
    ensures NoDuplicates(Distinct(ls))
    ensures forall x :: x in Distinct(ls) <==> x in ls
    ensures forall i, j :: 0 <= i < j < |Distinct(ls)| ==>
              FirstIndex(ls, Distinct(ls)[i]) < FirstIndex(ls, Distinct(ls)[j])
  {
    DistinctMembers(ls);
    DistinctNoDuplicates(ls);
    DistinctOrder(ls);
  }

  lemma {:induction false} DistinctMembers(ls: seq<string>)
    ensures forall x :: x in Distinct(ls) <==> x in ls
    decreases |ls|
  {
    if ls != [] {
      var init := ls[..|ls| - 1];
      assert ls == init + [ls[|ls| - 1]];
      DistinctMembers(init);
    }
  }

  lemma {:induction false} DistinctNoDuplicates(ls: seq<string>)
    ensures NoDuplicates(Distinct(ls))
    decreases |ls|
  {
    if ls != [] {
      var init, x := ls[..|ls| - 1], ls[|ls| - 1];
      DistinctNoDuplicates(init);
      var r := Distinct(init);
      if x !in r {
        forall i, j | 0 <= i < j < |r| + 1 ensures (r + [x])[i] != (r + [x])[j] {
          assert (r + [x])[i] == r[i];
          if j < |r| { assert (r + [x])[j] == r[j]; }
        }
      }
    }
  }

  lemma {:induction false} DistinctOrder(ls: seq<string>)
    ensures forall x :: x in Distinct(ls) ==> x in ls
    ensures InOrder(ls, Distinct(ls))
    decreases |ls|
  {
    DistinctMembers(ls);
    if ls != [] {
      var init, x := ls[..|ls| - 1], ls[|ls| - 1];
      assert ls == init + [x];
      DistinctOrder(init);
      OrderStep(init, x);
    }
  }

  /** The lines of `r`, all of `ls`, come in the order of their first
      occurrences in `ls`. */
  predicate InOrder(ls: seq<string>, r: seq<string>)
    requires forall y :: y in r ==> y in ls
  {
    forall i, j :: 0 <= i < j < |r| ==> FirstIndex(ls, r[i]) < FirstIndex(ls, r[j])
  }

  lemma OrderStep(init: seq<string>, x: string)
    requires forall y :: y in Distinct(init) ==> y in init
    requires InOrder(init, Distinct(init))
    ensures forall y :: y in Distinct(init + [x]) ==> y in init + [x]
    ensures InOrder(init + [x], Distinct(init + [x]))
  {
    var ls := init + [x];
    assert ls[..|ls| - 1] == init;
    var r := Distinct(init);
    DistinctMembers(init);
    OrderKept(init, x, r);
    if x !in r {
      OrderAppended(init, x, r);
    }
  }

  /** Appending a line keeps the first-occurrence order of earlier lines. */
  lemma OrderKept(init: seq<string>, x: string, r: seq<string>)
    requires forall y :: y in r ==> y in init
    requires forall i, j :: 0 <= i < j < |r| ==> FirstIndex(init, r[i]) < FirstIndex(init, r[j])
    ensures forall i, j :: 0 <= i < j < |r| ==> FirstIndex(init + [x], r[i]) < FirstIndex(init + [x], r[j])
  {
    forall y | y in r ensures FirstIndex(init + [x], y) == FirstIndex(init, y) {
      FirstIndexSnoc(init, x, y);
    }
  }

  /** A new line, appended, comes after every earlier one. */
  lemma OrderAppended(init: seq<string>, x: string, r: seq<string>)
    requires forall y :: y in r ==> y in init
    requires x !in init
    requires forall i, j :: 0 <= i < j < |r| ==> FirstIndex(init + [x], r[i]) < FirstIndex(init + [x], r[j])
    ensures forall i, j :: 0 <= i < j < |r| + 1 ==>
              FirstIndex(init + [x], (r + [x])[i]) < FirstIndex(init + [x], (r + [x])[j])
  {
    var ls := init + [x];
    assert ls[|init|] == x;
    assert FirstIndex(ls, x) == |init|;
    forall i, j | 0 <= i < j < |r| + 1
      ensures FirstIndex(ls, (r + [x])[i]) < FirstIndex(ls, (r + [x])[j])
    {
      assert (r + [x])[i] == r[i];
      if j == |r| {
        FirstIndexSnoc(init, x, r[i]);
      } else {
        assert (r + [x])[j] == r[j];
      }
    }
  }

  /** A list without repeats is its own de-duplication. */
  lemma {:induction false} DistinctOfDistinct(ls: seq<string>)
    requires NoDuplicates(ls)
    ensures Distinct(ls) == ls
    decreases |ls|
  {
    if ls != [] {
      var init := ls[..|ls| - 1];
      assert NoDuplicates(init) by {
        forall i, j | 0 <= i < j < |init| ensures init[i] != init[j] {
          assert init[i] == ls[i] && init[j] == ls[j];
        }
      }
      DistinctOfDistinct(init);
      DistinctMembers(init);
      assert ls[|ls| - 1] !in init by {
        forall i | 0 <= i < |init| ensures init[i] != ls[|ls| - 1] {
          assert init[i] == ls[i];
        }
      }
      assert init + [ls[|ls| - 1]] == ls;
    }
  }

  /** De-duplicating twice is de-duplicating once. */
  lemma DistinctIdempotent(ls: seq<string>)
    ensures Distinct(Distinct(ls)) == Distinct(ls)
  {
    DistinctSpec(ls);
    DistinctOfDistinct(Distinct(ls));
  }

  /** Lines 87-94: a `seen` set and a result list grown in one pass. */
  method UniqueLines(lines: seq<string>) returns (result: seq<string>)
    ensures result == Distinct(lines)
  {
    var seen: set<string> := {};
    result := [];
    for i := 0 to |lines|
      invariant result == Distinct(lines[..i])
      invariant forall x :: x in seen <==> x in result
    {
      assert lines[..i + 1][..i] == lines[..i];
      var line := lines[i];
      if line !in seen {
        result := result + [line];
        seen := seen + {line};
      }
    }
    assert lines[..|lines|] == lines;
  }

  // ----- normalize_dates: fix_month_text (lines 9-31) -----

  /** MONTHS_MAP in insertion order, the order its `items()` are visited. */
  const Months: seq<(string, string)> := [
    ("янв", "01"), ("фев", "02"), ("мар", "03"), ("апр", "04"),
    ("мая", "05"), ("май", "05"), ("июн", "06"), ("июл", "07"),
    ("авг", "08"), ("сен", "09"), ("сент", "09"), ("окт", "10"),
    ("ноя", "11"), ("дек", "12")]

  /** The value of the first key of `table`, from index `i` on, that occurs
      in `text`. */
  function FirstKey(text: string, table: seq<(string, string)>, i: nat): Option<string>
    requires i <= |table|
    decreases |table| - i
  {
    if i == |table| then None
    else if Contains(text, table[i].0) then Some(table[i].1)
    else FirstKey(text, table, i + 1)
  }

  /** A code is found exactly when some key from `i` on occurs in the
      text, and it is then the value of the first such key. */
  lemma {:induction false} FirstKeySpec(text: string, table: seq<(string, string)>, i: nat)
    requires i <= |table|
    ensures FirstKey(text, table, i).None? <==> forall k :: i <= k < |table| ==> !Contains(text, table[k].0)
    ensures FirstKey(text, table, i).Some? ==>
      exists k :: i <= k < |table| && Contains(text, table[k].0) && FirstKey(text, table, i).value == table[k].1
                  && forall j :: i <= j < k ==> !Contains(text, table[j].0)
    decreases |table| - i
  {
    if i < |table| && !Contains(text, table[i].0) {
      FirstKeySpec(text, table, i + 1);
      if FirstKey(text, table, i + 1).Some? {
        var k :| i + 1 <= k < |table| && Contains(text, table[k].0) && FirstKey(text, table, i + 1).value == table[k].1
                 && forall j :: i + 1 <= j < k ==> !Contains(text, table[j].0);
        assert forall j :: i <= j < k ==> !Contains(text, table[j].0);
      }
    }
  }

  /** The month code of a word: the value of the first key that occurs in
      the lower-cased word. */
  function MonthCode(word: string): Option<string> {
    FirstKey(Lower(word), Months, 0)
  }

  /** Lines 26-31: the first-match loop over the map. */
  method FixMonthText(text: string) returns (code: Option<string>)
    ensures code == MonthCode(text)
  {
    code := FirstKeyLoop(Lower(text), Months);
  }

  /** The loop over the map's items, in order, returning at the first key
      that occurs. */
  method FirstKeyLoop(t: string, table: seq<(string, string)>) returns (code: Option<string>)
    ensures code == FirstKey(t, table, 0)
  {
    for i := 0 to |table|
      invariant FirstKey(t, table, i) == FirstKey(t, table, 0)
    {
      var (key, val) := table[i];
      if Contains(t, key) {
        return Some(val);
      }
    }
    return None;
  }

  /** Every word containing "сент" contains "сен", which comes first in the
      map: the "сент" entry never decides a code. */
  lemma SentShadowed(text: string)
    requires Contains(text, "сент")
    ensures Contains(text, "сен")
  {
    var k := Find(text, "сент");
    assert text[k..k + 3] == text[k..k + 4][..3];
    assert OccursAt(text, "сен", k);
  }

  // ----- normalize_dates: the Russian-month branch (lines 33-49) -----

  /** The class `[а-яА-ЯёЁ]`. */
  predicate IsCyrillic(c: char) {
    'а' <= c <= 'я' || 'А' <= c <= 'Я' || c == 'ё' || c == 'Ё'
  }

  function CyrillicRun(s: string, i: nat): (n: nat)
    requires i <= |s|
    ensures i + n <= |s|
    ensures forall k :: i <= k < i + n ==> IsCyrillic(s[k])
    ensures i + n == |s| || !IsCyrillic(s[i + n])
    decreases |s| - i
  {
    if i < |s| && IsCyrillic(s[i]) then 1 + CyrillicRun(s, i + 1) else 0
  }

  /** `\d{1,2}\s+[а-яА-ЯёЁ]{3,}\s+\d{2,4}` matches at index `i`.  Digits,
      whitespace and the letters are disjoint classes, so each repetition
      takes its whole run. */
  predicate MonthPatternAt(s: string, i: nat)
    requires i <= |s|
  {
    var n := DigitRun(s, i);
    1 <= n <= 2
    && var j := i + n;
    SpaceRun(s, j) >= 1
    && var k := j + SpaceRun(s, j);
    CyrillicRun(s, k) >= 3
    && var l := k + CyrillicRun(s, k);
    SpaceRun(s, l) >= 1
    && DigitRun(s, l + SpaceRun(s, l)) >= 2
  }

  /** `re.search` of that pattern succeeds. */
  predicate MonthPattern(s: string) {
    exists i :: 0 <= i <= |s| && MonthPatternAt(s, i)
  }

  /** `re.sub(r"\D", "", s)` */
  function KeepDigits(s: string): (r: string)
    ensures AllDigits(r)
  {
    if s == [] then [] else (if IsDigit(s[0]) then [s[0]] else []) + KeepDigits(s[1..])
  }

  /** Removing the non-digits leaves nothing exactly when there was no
      digit, leaves a digit string unchanged, and works piece by piece, so
      the result is the digits of `s` in their order. */
  lemma {:induction false} KeepDigitsSpec(s: string)
    ensures KeepDigits(s) == [] <==> !HasDigit(s)
    ensures AllDigits(s) ==> KeepDigits(s) == s
    ensures |KeepDigits(s)| <= |s|
    decreases |s|
  {
    if s != [] {
      KeepDigitsSpec(s[1..]);
      assert HasDigit(s) <==> IsDigit(s[0]) || HasDigit(s[1..]) by {
        if HasDigit(s) {
          var i :| 0 <= i < |s| && IsDigit(s[i]);
          if i > 0 { assert s[1..][i - 1] == s[i]; }
        }
        if HasDigit(s[1..]) {
          var i :| 0 <= i < |s[1..]| && IsDigit(s[1..][i]);
          assert s[i + 1] == s[1..][i];
        }
      }
      if AllDigits(s) {
        assert AllDigits(s[1..]);
        assert s == [s[0]] + s[1..];
      }
    }
  }

  lemma {:induction false} KeepDigitsConcat(a: string, b: string)
    ensures KeepDigits(a + b) == KeepDigits(a) + KeepDigits(b)
    decreases |a|
  {
    if a != [] {
      assert (a + b)[1..] == a[1..] + b;
      KeepDigitsConcat(a[1..], b);
    } else {
      assert a + b == b;
    }
  }

  function DigitChar(d: nat): char
    requires d < 10
  {
    ('0' as int + d) as char
  }

  /** `str(n)` */
  function NatText(n: nat): (r: string)
    ensures r != [] && AllDigits(r)
  {
    if n < 10 then [DigitChar(n)] else NatText(n / 10) + [DigitChar(n % 10)]
  }

  function Zeros(k: nat): (r: string)
    ensures |r| == k && AllDigits(r)
  {
    if k == 0 then [] else Zeros(k - 1) + ['0']
  }

  /** `f"{n:0{w}d}"`: `n` in decimal, left-padded with zeros to width `w`. */
  function Pad(n: nat, w: nat): string {
    var t := NatText(n);
    (if |t| < w then Zeros(w - |t|) else []) + t
  }

  lemma {:induction false} NatTextValue(n: nat)
    ensures DigitsValue(NatText(n)) == n
  {
    if n >= 10 {
      NatTextValue(n / 10);
      var t := NatText(n);
      assert t[..|t| - 1] == NatText(n / 10);
    }
  }

  lemma {:induction false} ZerosValue(k: nat)
    ensures DigitsValue(Zeros(k)) == 0
  {
    if k > 0 {
      ZerosValue(k - 1);
      assert Zeros(k)[..k - 1] == Zeros(k - 1);
    }
  }

  /** Leading zeros do not change the value of a digit string. */
  lemma {:induction false} LeadingZeros(k: nat, t: string)
    requires AllDigits(t)
    ensures AllDigits(Zeros(k) + t) && DigitsValue(Zeros(k) + t) == DigitsValue(t)
    decreases |t|
  {
    if t == [] {
      assert Zeros(k) + t == Zeros(k);
      ZerosValue(k);
    } else {
      var u := Zeros(k) + t;
      assert u[..|u| - 1] == Zeros(k) + t[..|t| - 1];
      LeadingZeros(k, t[..|t| - 1]);
    }
  }

  /** `str(n)` has at most `w` digits exactly when `n < 10^w`. */
  lemma {:induction false} NatTextLength(n: nat, w: nat)
    requires w >= 1
    ensures |NatText(n)| <= w <==> n < Pow10(w)
  {
    if n >= 10 && w >= 2 {
      NatTextLength(n / 10, w - 1);
    }
  }

  /** `str(n)` has no leading zero. */
  lemma {:induction false} NatTextLead(n: nat)
    requires n >= 1
    ensures NatText(n)[0] != '0'
  {
    if n >= 10 {
      NatTextLead(n / 10);
    }
  }

  /** `t` is `n` written with at least `w` digits: a digit string that
      reads back as `n`, exactly `w` long when `n` fits in `w` digits, and
      otherwise longer and without a leading zero. */
  predicate PaddedText(t: string, n: nat, w: nat) {
    AllDigits(t) && DigitsValue(t) == n
    && (n < Pow10(w) ==> |t| == w)
    && (n >= Pow10(w) ==> |t| > w && t[0] != '0')
  }

  /** Zero-padding writes the number with at least `w` digits. */
  lemma PadSpec(n: nat, w: nat)
    requires w >= 1
    ensures PaddedText(Pad(n, w), n, w)
  {
    var t := NatText(n);
    NatTextValue(n);
    NatTextLength(n, w);
    if |t| < w {
      LeadingZeros(w - |t|, t);
    } else {
      assert Pad(n, w) == t;
      if n >= Pow10(w) {
        NatTextLead(n);
      }
    }
  }

  /** How the Russian-month branch ends: with a result, or by falling
      through to the format loop. */
  datatype Outcome = Decided(r: Option<string>) | FallThrough

  /** Lines 35-49 on the stripped text. */
  function RussianDate(t: string): Outcome {
    if !MonthPattern(t) then FallThrough
    else
      var parts := Words(t);
      if |parts| < 3 then FallThrough else MonthDate(parts)
  }

  /** Lines 41-49: the date read from the first three words, day, month
      and year. */
  function MonthDate(parts: seq<string>): Outcome
    requires |parts| >= 3
  {
    var day, year := KeepDigits(parts[0]), KeepDigits(parts[2]);
    if day == [] || year == [] then Decided(None)
    else match MonthCode(parts[1])
      case Some(code) => Decided(Some(Pad(DigitsValue(year), 4) + "-" + code + "-" + Pad(DigitsValue(day), 2)))
      case None => FallThrough
  }

  // ----- normalize_dates: separators and formats (lines 51-70) -----

  /** The class `[./\-]`. */
  predicate IsDateSep(c: char) { c == '.' || c == '/' || c == '-' }

  /** `re.sub(r"\s*([./\-])\s*", r"\1", s[p..])`: scanning left to right,
      a run of whitespace followed by a separator, the separator and the run
      of whitespace after it become the separator alone. */
  function SquashFrom(s: string, p: nat): string
    requires p <= |s|
    decreases |s| - p
  {
    if p == |s| then []
    else if SepNext(s, p) then [s[p + SpaceRun(s, p)]] + SquashFrom(s, SepResume(s, p))
    else [s[p]] + SquashFrom(s, p + 1)
  }

  /** Where the scan resumes after a separator step from `p`: past the
      whitespace, the separator and the whitespace after it. */
  function SepResume(s: string, p: nat): (r: nat)
    requires p <= |s| && SepNext(s, p)
    ensures p < r <= |s|
  {
    var q := p + SpaceRun(s, p) + 1;
    q + SpaceRun(s, q)
  }

  /** A separator follows the whitespace run at `p`. */
  predicate SepNext(s: string, p: nat)
    requires p <= |s|
  {
    p + SpaceRun(s, p) < |s| && IsDateSep(s[p + SpaceRun(s, p)])
  }

  /** The characters of `s` that are not whitespace, in order. */
  function NonSpace(s: string): string {
    NonSpaceFrom(s, 0)
  }

  /** The characters of `s[p..]` that are not whitespace, in order. */
  function NonSpaceFrom(s: string, p: nat): string
    requires p <= |s|
    decreases |s| - p
  {
    if p == |s| then [] else (if IsSpace(s[p]) then [] else [s[p]]) + NonSpaceFrom(s, p + 1)
  }

  /** Neither of two neighbours is whitespace beside a separator. */
  predicate TightPair(a: char, b: char) {
    !(IsSpace(a) && IsDateSep(b)) && !(IsDateSep(a) && IsSpace(b))
  }

  /** No whitespace stands next to a separator. */
  predicate Tight(r: string) {
    forall i, j :: 0 <= i < |r| && j == i + 1 < |r| ==> TightPair(r[i], r[j])
  }

  lemma {:induction false} NonSpaceFromSlice(s: string, p: nat)
    requires p <= |s|
    ensures NonSpaceFrom(s, p) == NonSpace(s[p..])
  {
    NonSpaceFromDrop(s, p, 0);
  }

  lemma {:induction false} NonSpaceFromDrop(s: string, p: nat, k: nat)
    requires p + k <= |s|
    ensures NonSpaceFrom(s, p + k) == NonSpaceFrom(s[p..], k)
    decreases |s| - p - k
  {
    if p + k < |s| {
      assert s[p..][k] == s[p + k];
      NonSpaceFromDrop(s, p, k + 1);
    }
  }

  /** A whitespace run adds nothing to the non-space text. */
  lemma {:induction false} NonSpaceSkip(s: string, p: nat)
    requires p <= |s|
    ensures NonSpaceFrom(s, p) == NonSpaceFrom(s, p + SpaceRun(s, p))
    decreases |s| - p
  {
    if p < |s| && IsSpace(s[p]) {
      assert SpaceRun(s, p) == 1 + SpaceRun(s, p + 1);
      assert NonSpaceFrom(s, p) == NonSpaceFrom(s, p + 1);
      NonSpaceSkip(s, p + 1);
    } else {
      assert SpaceRun(s, p) == 0;
    }
  }

  lemma NonSpaceCons(c: char, t: string)
    ensures NonSpace([c] + t) == (if IsSpace(c) then [] else [c]) + NonSpace(t)
  {
    NonSpaceFromDrop([c] + t, 1, 0);
    assert ([c] + t)[1..] == t;
  }

  /** One step of the substitution from `p`: it emits `c` and resumes at
      `r`. The emitted character carries the non-space text of `s[p..r]`,
      and it is tight against whatever the rest starts with. */
  lemma StepSplit(s: string, p: nat) returns (c: char, r: nat)
    requires p < |s|
    ensures p < r <= |s|
    ensures SquashFrom(s, p) == [c] + SquashFrom(s, r)
    ensures NonSpaceFrom(s, p) == (if IsSpace(c) then [] else [c]) + NonSpaceFrom(s, r)
    ensures SquashFrom(s, r) != [] ==> TightPair(c, SquashFrom(s, r)[0])
  {
    if SepNext(s, p) {
      c, r := SepSplit(s, p);
      SepTight(s, r, c);
    } else {
      c, r := PlainSplit(s, p);
    }
  }

  /** A separator step: the whitespace around the separator is dropped. */
  lemma SepSplit(s: string, p: nat) returns (c: char, r: nat)
    requires p < |s| && SepNext(s, p)
    ensures p < r <= |s| && IsDateSep(c) && (r == |s| || !IsSpace(s[r]))
    ensures SquashFrom(s, p) == [c] + SquashFrom(s, r)
    ensures NonSpaceFrom(s, p) == [c] + NonSpaceFrom(s, r)
  {
    var n, m := SepResumeShape(s, p);
    c, r := s[p + n], p + n + 1 + m;
    SquashSepUnfold(s, p);
    SepText(s, p, n, m);
  }

  /** A separator is tight against what squashing emits from a
      non-space character. */
  lemma SepTight(s: string, r: nat, c: char)
    requires r <= |s| && IsDateSep(c) && (r == |s| || !IsSpace(s[r]))
    ensures SquashFrom(s, r) != [] ==> TightPair(c, SquashFrom(s, r)[0])
  {
    if r < |s| {
      SquashHead(s, r);
      SepBeforePlain(c, s[r]);
    }
  }

  /** A separator step skips `n` whitespace characters, the separator and
      `m` more whitespace characters, and stops before a non-space. */
  lemma SepResumeShape(s: string, p: nat) returns (n: nat, m: nat)
    requires p < |s| && SepNext(s, p)
    ensures n == SpaceRun(s, p) && p + n < |s| && IsDateSep(s[p + n])
    ensures m == SpaceRun(s, p + n + 1) && SepResume(s, p) == p + n + 1 + m
    ensures p + n + 1 + m == |s| || !IsSpace(s[p + n + 1 + m])
  {
    n := SpaceRun(s, p);
    m := SpaceRun(s, p + n + 1);
  }

  lemma SepBeforePlain(c: char, d: char)
    requires IsDateSep(c) && !IsSpace(d)
    ensures TightPair(c, d)
  {
  }

  /** Whitespace, a separator and whitespace leave only the separator. */
  lemma SepText(s: string, p: nat, n: nat, m: nat)
    requires p + n < |s| && n == SpaceRun(s, p) && IsDateSep(s[p + n])
    requires m == SpaceRun(s, p + n + 1)
    ensures NonSpaceFrom(s, p) == [s[p + n]] + NonSpaceFrom(s, p + n + 1 + m)
  {
    NonSpaceSkip(s, p + n + 1);
    NonSpaceFromSep(s, p + n);
    NonSpaceSkip(s, p);
  }

  /** A plain step: one character is copied. */
  lemma PlainSplit(s: string, p: nat) returns (c: char, r: nat)
    requires p < |s| && !SepNext(s, p)
    ensures c == s[p] && r == p + 1 && !IsDateSep(c)
    ensures SquashFrom(s, p) == [c] + SquashFrom(s, r)
    ensures NonSpaceFrom(s, p) == (if IsSpace(c) then [] else [c]) + NonSpaceFrom(s, r)
    ensures SquashFrom(s, r) != [] ==> TightPair(c, SquashFrom(s, r)[0])
  {
    c, r := s[p], p + 1;
    SquashPlainUnfold(s, p);
    assert !IsDateSep(s[p]) by { if !IsSpace(s[p]) { assert SpaceRun(s, p) == 0; } }
    if IsSpace(s[p]) && p + 1 < |s| {
      PlainAfterSpace(s, p);
    }
  }

  lemma NonSpaceFromSep(s: string, i: nat)
    requires i < |s| && IsDateSep(s[i])
    ensures NonSpaceFrom(s, i) == [s[i]] + NonSpaceFrom(s, i + 1)
  {
  }

  lemma SquashSepUnfold(s: string, p: nat)
    requires p < |s| && SepNext(s, p)
    ensures SquashFrom(s, p) == [s[p + SpaceRun(s, p)]] + SquashFrom(s, SepResume(s, p))
  {
  }

  lemma SquashPlainUnfold(s: string, p: nat)
    requires p < |s| && !SepNext(s, p)
    ensures SquashFrom(s, p) == [s[p]] + SquashFrom(s, p + 1)
  {
  }

  /** Squashing from a character that is not whitespace starts with it. */
  lemma SquashHead(s: string, p: nat)
    requires p < |s| && !IsSpace(s[p])
    ensures SquashFrom(s, p) != [] && SquashFrom(s, p)[0] == s[p]
  {
    assert SpaceRun(s, p) == 0;
    if SepNext(s, p) { SquashSepUnfold(s, p); } else { SquashPlainUnfold(s, p); }
  }

  /** After a whitespace character that starts no separator step, the rest
      does not start with a separator. */
  lemma PlainAfterSpace(s: string, p: nat)
    requires p + 1 < |s| && IsSpace(s[p]) && !SepNext(s, p)
    ensures !IsDateSep(SquashFrom(s, p + 1)[0])
  {
    assert SpaceRun(s, p) == 1 + SpaceRun(s, p + 1);
    assert !SepNext(s, p + 1);
    SquashPlainUnfold(s, p + 1);
    assert !IsDateSep(s[p + 1]) by { if !IsSpace(s[p + 1]) { assert SpaceRun(s, p + 1) == 0; } }
  }

  /** Squashing removes only whitespace: the other characters are kept, in
      order. */
  lemma SquashKeepsText(s: string, p: nat)
    requires p <= |s|
    ensures NonSpace(SquashFrom(s, p)) == NonSpace(s[p..])
  {
    SquashKeepsFrom(s, p);
    NonSpaceFromSlice(s, p);
  }

  lemma {:induction false} SquashKeepsFrom(s: string, p: nat)
    requires p <= |s|
    ensures NonSpace(SquashFrom(s, p)) == NonSpaceFrom(s, p)
    decreases |s| - p
  {
    if p < |s| {
      var c, r := StepSplit(s, p);
      SquashKeepsFrom(s, r);
      NonSpaceCons(c, SquashFrom(s, r));
    }
  }

  /** After squashing no whitespace is left beside a separator. */
  lemma {:induction false} SquashTight(s: string, p: nat)
    requires p <= |s|
    ensures Tight(SquashFrom(s, p))
    decreases |s| - p
  {
    if p < |s| {
      var c, r := StepSplit(s, p);
      SquashTight(s, r);
      JoinTight(c, SquashFrom(s, r));
    }
  }

  /** Up to an index `k` that ends the text or follows a character that is
      not whitespace, text without separators is copied unchanged: whitespace
      away from separators is kept. */
  lemma {:induction false} SquashKeepsPlain(s: string, p: nat, k: nat)
    requires p <= k <= |s|
    requires forall i :: p <= i < k ==> !IsDateSep(s[i])
    requires k == p || k == |s| || !IsSpace(s[k - 1])
    ensures SquashFrom(s, p) == s[p..k] + SquashFrom(s, k)
    decreases k - p
  {
    if p < k {
      PlainBefore(s, p, k);
      SquashPlainUnfold(s, p);
      SquashKeepsPlain(s, p + 1, k);
      ConsSlice(s, p, k, SquashFrom(s, k));
    }
  }

  lemma ConsSlice(s: string, p: nat, k: nat, t: string)
    requires p < k <= |s|
    ensures [s[p]] + (s[p + 1..k] + t) == s[p..k] + t
  {
    assert s[p..k] == [s[p]] + s[p + 1..k];
  }

  /** No separator step starts before such an index `k`. */
  lemma PlainBefore(s: string, p: nat, k: nat)
    requires p < k <= |s|
    requires forall i :: p <= i < k ==> !IsDateSep(s[i])
    requires k == |s| || !IsSpace(s[k - 1])
    ensures !SepNext(s, p)
  {
    var j := p + SpaceRun(s, p);
    if k < |s| {
      assert !IsSpace(s[k - 1]);
      assert j < k;
    }
  }

  /** Text without separators is left as it is. */
  lemma SquashNoSeparator(s: string)
    requires forall i :: 0 <= i < |s| ==> !IsDateSep(s[i])
    ensures SquashFrom(s, 0) == s
  {
    SquashKeepsPlain(s, 0, |s|);
  }

  lemma JoinTight(c: char, tail: string)
    requires Tight(tail)
    requires tail != [] ==> TightPair(c, tail[0])
    ensures Tight([c] + tail)
  {
    var r := [c] + tail;
    forall i, j | 0 <= i < |r| && j == i + 1 < |r| ensures TightPair(r[i], r[j]) {
      if i > 0 {
        assert r[i] == tail[i - 1] && r[j] == tail[j - 1];
      }
    }
  }

  /** The formats tried, in order (lines 52-63). */
  const Formats: seq<string> := [
    "%d.%m.%Y", "%d.%m.%y", "%d-%m-%Y", "%d-%m-%y", "%d/%m/%Y",
    "%d/%m/%y", "%Y-%m-%d", "%Y/%m/%d", "%d %m %Y", "%d %m %y"]

  /** The ISO text of the first format from index `i` on that parses `u`. */
  function FirstFormat(u: string, strptime: (string, string) -> Option<string>, i: nat): (r: Option<string>)
    requires i <= |Formats|
    ensures r.None? <==> forall k :: i <= k < |Formats| ==> strptime(u, Formats[k]).None?
    ensures r.Some? ==> exists k :: i <= k < |Formats| && strptime(u, Formats[k]) == r
                                    && forall j :: i <= j < k ==> strptime(u, Formats[j]).None?
    decreases |Formats| - i
  {
    if i == |Formats| then None
    else if strptime(u, Formats[i]).Some? then strptime(u, Formats[i])
    else FirstFormat(u, strptime, i + 1)
  }

  /** `try_parse_date(s)` */
  function ParseDate(s: string, strptime: (string, string) -> Option<string>): Option<string> {
    var t := Strip(s);
    match RussianDate(t)
    case Decided(r) => r
    case FallThrough => FirstFormat(SquashFrom(t, 0), strptime, 0)
  }

  /** Lines 35-49 with their early returns. */
  method MonthBranch(t: string) returns (outcome: Outcome)
    ensures outcome == RussianDate(t)
  {
    if MonthPattern(t) {
      var parts := Words(t);
      if |parts| >= 3 {
        var day := KeepDigits(parts[0]);
        var monthText := parts[1];
        var year := KeepDigits(parts[2]);
        if day == [] || year == [] {
          return Decided(None);
        }
        var code := FixMonthText(monthText);
        if code.Some? {
          return Decided(Some(Pad(DigitsValue(year), 4) + "-" + code.value + "-" + Pad(DigitsValue(day), 2)));
        }
      }
    }
    return FallThrough;
  }

  /** Lines 64-70: the first format that parses wins. */
  method FormatLoop(u: string, strptime: (string, string) -> Option<string>) returns (r: Option<string>)
    ensures r == FirstFormat(u, strptime, 0)
  {
    for i := 0 to |Formats|
      invariant FirstFormat(u, strptime, i) == FirstFormat(u, strptime, 0)
    {
      var d := strptime(u, Formats[i]);
      if d.Some? {
        return d;
      }
    }
    return None;
  }

  /** Lines 33-70. */
  method TryParseDate(s: string, strptime: (string, string) -> Option<string>) returns (r: Option<string>)
    ensures r == ParseDate(s, strptime)
  {
    var t := Strip(s);
    var outcome := MonthBranch(t);
    if outcome.Decided? {
      return outcome.r;
    }
    r := FormatLoop(SquashFrom(t, 0), strptime);
  }

  /** In the Russian-month branch a day or year without digits gives no
      date, and otherwise a month word with a code gives the year padded to
      four digits, the code and the day padded to two, joined by dashes. */
  lemma RussianBranch(t: string)
    requires MonthPattern(t) && |Words(t)| >= 3
    ensures var parts := Words(t);
      var day, year := KeepDigits(parts[0]), KeepDigits(parts[2]);
      (day == [] || year == [] ==> RussianDate(t) == Decided(None))
      && (day != [] && year != [] && MonthCode(parts[1]).Some? ==>
            exists y, d :: RussianDate(t) == Decided(Some(y + "-" + MonthCode(parts[1]).value + "-" + d))
              && PaddedText(y, DigitsValue(year), 4) && PaddedText(d, DigitsValue(day), 2))
  {
    MonthDateSpec(Words(t));
  }

  lemma MonthDateSpec(parts: seq<string>)
    requires |parts| >= 3
    ensures var day, year := KeepDigits(parts[0]), KeepDigits(parts[2]);
      (day == [] || year == [] ==> MonthDate(parts) == Decided(None))
      && (day != [] && year != [] && MonthCode(parts[1]).Some? ==>
            exists y, d :: MonthDate(parts) == Decided(Some(y + "-" + MonthCode(parts[1]).value + "-" + d))
              && PaddedText(y, DigitsValue(year), 4) && PaddedText(d, DigitsValue(day), 2))
  {
    var day, year := KeepDigits(parts[0]), KeepDigits(parts[2]);
    if day != [] && year != [] && MonthCode(parts[1]).Some? {
      PadSpec(DigitsValue(year), 4);
      PadSpec(DigitsValue(day), 2);
      var y, d := Pad(DigitsValue(year), 4), Pad(DigitsValue(day), 2);
      assert MonthDate(parts) == Decided(Some(y + "-" + MonthCode(parts[1]).value + "-" + d));
    }
  }

  /** Outside the Russian-month branch the formats are tried on the
      squashed text, and the first that parses decides. */
  lemma FormatBranch(s: string, strptime: (string, string) -> Option<string>)
    requires RussianDate(Strip(s)).FallThrough?
    ensures var u := SquashFrom(Strip(s), 0);
      Tight(u) && NonSpace(u) == NonSpace(Strip(s))
      && (ParseDate(s, strptime).None? <==> forall k :: 0 <= k < |Formats| ==> strptime(u, Formats[k]).None?)
  {
    SquashTight(Strip(s), 0);
    SquashKeepsText(Strip(s), 0);
    assert Strip(s)[0..] == Strip(s);
  }

  // ----- normalize_dates: the per-line rewrite (lines 72-84) -----

  const DatePrefix := "дата:"

  /** One line of the output. */
  function NormalizeLine(line: string, strptime: (string, string) -> Option<string>): string {
    if StartsWith(Lower(line), DatePrefix) then
      match ParseDate(Strip(AfterFirst(line, ':')), strptime)
      case Some(iso) => if iso != [] then "дата: " + iso else line
      case None => line
    else line
  }

  /** A rewritten line starts with the label. */
  lemma LabelStartsDate(iso: string)
    ensures StartsWith(Lower("дата: " + iso), DatePrefix)
  {
    var t := "дата: " + iso;
    assert forall i :: 0 <= i < 5 ==> t[i] == DatePrefix[i];
    assert forall i :: 0 <= i < 5 ==> LowerChar(DatePrefix[i]) == DatePrefix[i];
    assert Lower(t)[..5] == DatePrefix;
  }

  /** A line is a `дата:` line after the rewrite exactly when it was one
      before; other lines are left alone, and a date line becomes "дата: "
      and the date when its text after the first colon parses to a
      non-empty date, and keeps its text otherwise. */
  lemma NormalizeLineSpec(line: string, strptime: (string, string) -> Option<string>)
    ensures var out := NormalizeLine(line, strptime);
      (StartsWith(Lower(out), DatePrefix) <==> StartsWith(Lower(line), DatePrefix))
      && (!StartsWith(Lower(line), DatePrefix) ==> out == line)
      && (out == line || exists iso :: iso != [] && out == "дата: " + iso
                                       && ParseDate(Strip(AfterFirst(line, ':')), strptime) == Some(iso))
      && (StartsWith(Lower(line), DatePrefix) ==>
            var date := ParseDate(Strip(AfterFirst(line, ':')), strptime);
            (date.Some? && date.value != [] ==> out == "дата: " + date.value)
            && (date.None? || date.value == [] ==> out == line))
  {
    if StartsWith(Lower(line), DatePrefix) {
      var date := ParseDate(Strip(AfterFirst(line, ':')), strptime);
      if date.Some? && date.value != [] {
        LabelStartsDate(date.value);
      }
    }
  }

  /** Lines 74-83: the branches for one line. */
  method RewriteLine(line: string, strptime: (string, string) -> Option<string>) returns (out: string)
    ensures out == NormalizeLine(line, strptime)
  {
    if StartsWith(Lower(line), DatePrefix) {
      var original := line;
      var datePart := Strip(AfterFirst(line, ':'));
      var isoDate := TryParseDate(datePart, strptime);
      if isoDate.Some? && isoDate.value != [] {
        out := "дата: " + isoDate.value;
      } else {
        out := original;
      }
    } else {
      out := line;
    }
  }

  /** Lines 72-84: the loop building `iso_lines`. */
  method NormalizeDates(lines: seq<string>, strptime: (string, string) -> Option<string>) returns (isoLines: seq<string>)
    ensures |isoLines| == |lines|
    ensures forall k :: 0 <= k < |lines| ==> isoLines[k] == NormalizeLine(lines[k], strptime)
  {
    isoLines := [];
    for i := 0 to |lines|
      invariant |isoLines| == i
      invariant forall k :: 0 <= k < i ==> isoLines[k] == NormalizeLine(lines[k], strptime)
    {
      var out := RewriteLine(lines[i], strptime);
      isoLines := isoLines + [out];
    }
  }

  // ----- clean_doc_number (lines 97-118) -----

  const NumberPrefix := "номер:"
  const NotFound := "<не найдено>"

  /** The class `[оo0g°:]` under IGNORECASE. */
  predicate IsNumeroMark(c: char) {
    c == 'о' || c == 'О' || c == 'o' || c == 'O' || c == '0' || c == 'g' || c == 'G' || c == '°' || c == ':'
  }

  /** `\b` before a word character at index `p`. */
  predicate WordStartsAt(s: string, p: nat)
    requires p <= |s|
  {
    p == 0 || !IsWord(s[p - 1])
  }

  /** `re.sub(r"\bN[оo0g°:]{1}\s*", "№ ", s[p..], flags=re.IGNORECASE)`:
      scanning left to right, an `N` or `n` at a word start followed by one
      mark and any whitespace becomes "№ ". */
  function NumeroFrom(s: string, p: nat): string
    requires p <= |s|
    decreases |s| - p
  {
    if p == |s| then []
    else if (s[p] == 'N' || s[p] == 'n') && WordStartsAt(s, p) && p + 1 < |s| && IsNumeroMark(s[p + 1]) then
      "№ " + NumeroFrom(s, p + 2 + SpaceRun(s, p + 2))
    else [s[p]] + NumeroFrom(s, p + 1)
  }

  /** The document kinds of line 104, in the order the alternation tries
      them. */
  const DocKinds: seq<string> := ["акт", "договор", "счет-фактура", "счет", "упд", "акт выполненных работ"]

  /** `kind` matches case-insensitively at the start of `c` and is followed
      by a word boundary. */
  predicate KindAt(c: string, kind: string) {
    StartsWith(Lower(c), kind) && (|kind| == |c| || !IsWord(c[|kind|]))
  }

  /** Lines 103-108: remove the first kind from index `i` that matches at
      the start, then strip. */
  function DropKind(c: string, kinds: seq<string>, i: nat): string
    requires i <= |kinds|
    decreases |kinds| - i
  {
    if i == |kinds| then Strip(c)
    else if KindAt(c, kinds[i]) then Strip(c[|kinds[i]|..])
    else DropKind(c, kinds, i + 1)
  }

  /** Where `re.match(r"^(номер|дата)\s*[:\-]?", c, flags=re.IGNORECASE)`
      ends, or 0 when it does not match. */
  function LabelEnd(c: string): (k: nat)
    ensures k <= |c|
  {
    var n := if StartsWith(Lower(c), "номер") then 5 else if StartsWith(Lower(c), "дата") then 4 else 0;
    if n == 0 then 0
    else
      var k := n + SpaceRun(c, n);
      if k < |c| && (c[k] == ':' || c[k] == '-') then k + 1 else k
  }

  /** Lines 111-113: the label removed, then stripped. */
  function DropLabel(c: string): string {
    Strip(c[LabelEnd(c)..])
  }

  /** The class `[\s./-]`. */
  predicate IsDateGap(c: char) { IsSpace(c) || c == '.' || c == '/' || c == '-' }

  /** `re.fullmatch(r"\d{1,2}[\s./-]\d{1,2}[\s./-]\d{2,4}", c)`: the gaps
      are not digits, so each digit group is a whole run. */
  predicate DateShaped(c: string) {
    var a := DigitRun(c, 0);
    1 <= a <= 2 && a < |c| && IsDateGap(c[a])
    && var b := DigitRun(c, a + 1);
    1 <= b <= 2 && a + 1 + b < |c| && IsDateGap(c[a + 1 + b])
    && var e := DigitRun(c, a + b + 2);
    2 <= e <= 4 && a + b + 2 + e == |c|
  }

  /** Lines 101-113: what is left of a number line once the prefix, the
      `N°` marks, a leading document kind, everything up to the first `№`
      and a leading label are removed. */
  function NumberContent(raw: string, kinds: seq<string>): (c: string)
    ensures Strip(c) == c
  {
    var c1 := Strip(AfterFirst(raw, ':'));
    var c2 := NumeroFrom(c1, 0);
    var c3 := DropKind(c2, kinds, 0);
    var c4 := if '№' in c3 then Strip(AfterFirst(c3, '№')) else c3;
    var c5 := DropLabel(c4);
    StripOfDropLabel(c4);
    c5
  }

  lemma StripOfDropLabel(c: string)
    ensures Strip(DropLabel(c)) == DropLabel(c)
  {
    StripByIdempotent(c[LabelEnd(c)..], Spaces);
  }

  /** `clean_doc_number` with the document kinds tried in the order
      `kinds`. */
  function CleanWith(raw: string, kinds: seq<string>): string {
    if !StartsWith(Lower(raw), NumberPrefix) then Strip(raw)
    else
      var c := NumberContent(raw, kinds);
      if DateShaped(c) then NotFound
      else if !HasDigit(c) then NotFound
      else if c != [] then c else NotFound
  }

  /** Lines 97-118 as written. */
  function CleanDocNumber(raw: string): string {
    CleanWith(raw, DocKinds)
  }

  lemma NotFoundHasNoDigit()
    ensures !HasDigit(NotFound) && NotFound != []
  {
    forall i | 0 <= i < |NotFound|
      ensures !IsDigit(NotFound[i])
    {
      assert NotFound[i] == "<не найдено>"[i];
    }
  }

  /** A line that is not a number line comes back stripped.  A number line
      comes back as the sentinel exactly when its cleaned content is
      date-shaped or has no digit, and otherwise as that content, which is
      stripped and holds a digit; so a number line never gives an empty
      result. */
  lemma CleanWithSpec(raw: string, kinds: seq<string>)
    ensures !StartsWith(Lower(raw), NumberPrefix) ==> CleanWith(raw, kinds) == Strip(raw)
    ensures StartsWith(Lower(raw), NumberPrefix) ==>
      var c := NumberContent(raw, kinds);
      var r := CleanWith(raw, kinds);
      r != []
      && (r == NotFound <==> DateShaped(c) || !HasDigit(c))
      && (r != NotFound ==> r == c && HasDigit(r) && Strip(r) == r)
  {
    NotFoundHasNoDigit();
  }

  /** A blank line is no number line and comes back empty: the sentinel
      guards only number lines. */
  lemma BlankLineGivesEmpty(raw: string)
    requires Strip(raw) == []
    ensures CleanDocNumber(raw) == []
  {
    BlankIsNoNumberLine(raw);
  }

  lemma BlankIsNoNumberLine(raw: string)
    requires Strip(raw) == []
    ensures !StartsWith(Lower(raw), NumberPrefix)
  {
    StripEmptyIffBlank(raw);
    if |raw| > 0 {
      assert IsSpace(raw[0]);
      assert Lower(raw)[0] == LowerChar(raw[0]) == raw[0];
    }
  }

  // ----- The shadowed document kind -----

  const ActOfWorks := "акт выполненных работ"

  /** Whenever "акт выполненных работ" would match, "акт" matches first:
      the long kind is never the one removed, and only its first word goes. */
  lemma ActOfWorksShadowed(c: string)
    requires KindAt(c, ActOfWorks)
    ensures DropKind(c, DocKinds, 0) == Strip(c[3..])
  {
    assert Lower(c)[..3] == Lower(c)[..21][..3];
    assert ActOfWorks[..3] == "акт";
    assert c[3] == ' ' by { assert LowerChar(c[3]) == Lower(c)[..21][3] == ' '; }
    assert KindAt(c, "акт");
  }

  /** The kinds with "акт выполненных работ" tried before its first word. */
  const KindsLongestFirst: seq<string> := ["акт выполненных работ", "акт", "договор", "счет-фактура", "счет", "упд"]

  /** `clean_doc_number` with the whole phrase "акт выполненных работ"
      removed, as its place in the list of kinds means. */
  function CleanDocNumberIntended(raw: string): string {
    CleanWith(raw, KindsLongestFirst)
  }

  /** With the corrected order the whole phrase is removed. */
  lemma ActOfWorksRemoved(c: string)
    requires KindAt(c, ActOfWorks)
    ensures DropKind(c, KindsLongestFirst, 0) == Strip(c[|ActOfWorks|..])
  {
  }

  /** The corrected order removes the same as the source's for every other
      kind: the lists differ only in where the long phrase stands. */
  lemma IntendedAgreesOtherwise(c: string)
    requires !KindAt(c, ActOfWorks)
    ensures DropKind(c, KindsLongestFirst, 0) == DropKind(c, DocKinds, 0)
  {
    assert KindsLongestFirst[1..] == DocKinds[..5];
    if !KindAt(c, "акт") && !KindAt(c, "договор") && !KindAt(c, "счет-фактура")
       && !KindAt(c, "счет") && !KindAt(c, "упд") {
      assert DropKind(c, DocKinds, 5) == Strip(c);
    }
  }

  /** The example: the number line "номер: акт выполненных работ 7". */
  const ActContent := ActOfWorks + " 7"
  const ActLine := NumberPrefix + " " + ActContent

  /** No upper-case letter of the declared alphabet. */
  predicate NoUpper(s: string) {
    forall i :: 0 <= i < |s| ==> !('A' <= s[i] <= 'Z' || '\U{400}' <= s[i] <= '\U{42F}')
  }

  /** A string without an upper-case letter is its own lower case. */
  lemma LowerOfLower(s: string)
    requires NoUpper(s)
    ensures Lower(s) == s
  {
  }

  /** Without a latin `N` or `n` there is nothing to rewrite. */
  lemma {:induction false} NumeroUntouched(s: string, p: nat)
    requires p <= |s| && forall i :: p <= i < |s| ==> s[i] != 'N' && s[i] != 'n'
    ensures NumeroFrom(s, p) == s[p..]
    decreases |s| - p
  {
    if p < |s| {
      NumeroUntouched(s, p + 1);
      assert s[p..] == [s[p]] + s[p + 1..];
    }
  }

  lemma NoUpperJoin(a: string, b: string)
    requires NoUpper(a) && NoUpper(b)
    ensures NoUpper(a + b)
  {
    assert forall i :: |a| <= i < |a + b| ==> (a + b)[i] == b[i - |a|];
  }

  lemma ActLineNoUpper()
    ensures NoUpper(ActLine)
  {
    assert NoUpper("номер:") && NoUpper(" ") && NoUpper("акт выполненных работ") && NoUpper(" 7");
    NoUpperJoin(ActOfWorks, " 7");
    NoUpperJoin(" ", ActContent);
    NoUpperJoin(NumberPrefix, " " + ActContent);
    assert ActLine == NumberPrefix + (" " + ActContent);
  }

  lemma ActLineColon()
    ensures AfterFirst(ActLine, ':') == " " + ActContent
  {
    assert ActLine[..6] == NumberPrefix && ActLine[6..] == " " + ActContent;
    assert forall i :: 0 <= i < 5 ==> NumberPrefix[i] != ':';
    assert ActLine[5] == ':';
    assert ':' !in ActLine[..5];
    assert IndexOf(ActLine, ':') == Some(5);
  }

  predicate NoLatinN(s: string) {
    forall i :: 0 <= i < |s| ==> s[i] != 'N' && s[i] != 'n' && s[i] != '№'
  }

  lemma ActContentChars()
    ensures |ActContent| == 23
    ensures NoLatinN(ActContent) && NoUpper(ActContent)
    ensures ActContent[..21] == ActOfWorks && ActContent[21] == ' ' && ActContent[22] == '7'
    ensures ActContent[3] == ' ' && ActContent[4] == 'в'
  {
    assert ActContent == "акт выполненных работ 7";
    assert NoLatinN("акт выполненных работ 7");
    assert NoUpper("акт выполненных работ 7");
  }

  /** Lines 98-102 on the example: a number line whose content is
      "акт выполненных работ 7". */
  lemma ActLineContent()
    ensures StartsWith(Lower(ActLine), NumberPrefix)
    ensures NumeroFrom(Strip(AfterFirst(ActLine, ':')), 0) == ActContent
  {
    ActLineNoUpper();
    LowerOfLower(ActLine);
    assert ActLine[..6] == NumberPrefix;
    ActLineColon();
    ActContentChars();
    var tail := " " + ActContent;
    assert TrimStart(tail, Spaces, 1) == 1 by { assert tail[1] == 'а'; }
    assert TrimStart(tail, Spaces, 0) == 1;
    assert TrimEnd(tail, Spaces, 1, |tail|) == |tail| by { assert tail[|tail| - 1] == '7'; }
    assert tail[1..|tail|] == ActContent;
    assert Strip(tail) == ActContent;
    NumeroUntouched(ActContent, 0);
    assert ActContent[0..] == ActContent;
  }

  /** The cleaned end of the example, for the kinds as written and in the
      corrected order. */
  lemma ActContentKinds()
    ensures DropKind(ActContent, DocKinds, 0) == ActContent[4..]
    ensures DropKind(ActContent, KindsLongestFirst, 0) == "7"
  {
    ActContentChars();
    LowerOfLower(ActContent);
    assert KindAt(ActContent, ActOfWorks);
    ActOfWorksShadowed(ActContent);
    var rest := ActContent[3..];
    assert TrimStart(rest, Spaces, 1) == 1;
    assert TrimStart(rest, Spaces, 0) == 1;
    assert TrimEnd(rest, Spaces, 1, |rest|) == |rest|;
    assert rest[1..] == ActContent[4..];
    ActOfWorksRemoved(ActContent);
    var last := ActContent[21..];
    assert last == " 7";
    assert TrimStart(last, Spaces, 0) == 1;
    assert TrimEnd(last, Spaces, 1, 2) == 2;
  }

  lemma WorksTail()
    ensures var w := ActContent[4..];
      '№' !in w && LabelEnd(w) == 0 && Strip(w) == w && !DateShaped(w) && HasDigit(w)
  {
    ActContentChars();
    var w := ActContent[4..];
    assert w == "выполненных работ 7";
    assert w[0] == 'в' && w[|w| - 1] == '7';
    assert Lower(w)[0] == 'в';
    assert !StartsWith(Lower(w), "номер") by { assert "номер"[0] == 'н'; }
    assert !StartsWith(Lower(w), "дата") by { assert "дата"[0] == 'д'; }
    assert TrimStart(w, Spaces, 0) == 0;
    assert TrimEnd(w, Spaces, 0, |w|) == |w|;
    assert w[0..|w|] == w;
    assert DigitRun(w, 0) == 0;
  }

  lemma SevenTail()
    ensures '№' !in "7" && LabelEnd("7") == 0 && Strip("7") == "7" && !DateShaped("7") && HasDigit("7")
  {
    assert Lower("7") == "7";
    assert TrimStart("7", Spaces, 0) == 0;
    assert TrimEnd("7", Spaces, 0, 1) == 1;
    assert DigitRun("7", 0) == 1;
    assert IsDigit("7"[0]);
  }

  /** As written, "номер: акт выполненных работ 7" cleans to
      "выполненных работ 7"; in the corrected order it cleans to "7". */
  lemma ActLineCleaned()
    ensures CleanDocNumber(ActLine) == ActContent[4..]
    ensures CleanDocNumberIntended(ActLine) == "7"
  {
    ActLineContent();
    ActContentKinds();
    WorksTail();
    SevenTail();
    var w := ActContent[4..];
    assert w[0..] == w;
    assert DropLabel(w) == w;
    assert DropLabel("7") == "7" by { assert "7"[0..] == "7"; }
    assert NumberContent(ActLine, DocKinds) == w;
    assert NumberContent(ActLine, KindsLongestFirst) == "7";
  }
}
