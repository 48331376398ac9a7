/** The price tokenizer of the menu parser (`_extract_price`,
    src/application/use_cases/parse_menu.py).

    The pattern `(\$\s*\d+[\.,]?\d{0,2}|\b\d+[\.,]?\d{0,2}\b)` is searched
    for leftmost-first; at each index the `$` alternative is tried before the
    bare-number one. Each alternative is written out below with the exact
    outcome of Python's backtracking matcher.
 */
module Price {
  import opened Strings

  function Min2(n: nat): nat { if n < 2 then n else 2 }

  /** `\$\s*\d+[.,]?\d{0,2}` at index `p`: the end of the match, if any.
      Nothing follows the greedy parts, so the greedy attempt is the match. */
  function DollarMatchAt(s: string, p: nat): (e: Option<nat>)
    requires p <= |s|
    ensures e.Some? ==> p < e.value <= |s|
  {
    if p < |s| && s[p] == '$' then NumeralEnd(s, p + 1 + SpaceRun(s, p + 1)) else None
  }

  /** The greedy `\d+[.,]?\d{0,2}` from index `d`: the digit run, then a
      separator and up to two digits when a separator follows. */
  function NumeralEnd(s: string, d: nat): (e: Option<nat>)
    requires d <= |s|
    ensures e.Some? ==> d < e.value <= |s|
  {
    var n := DigitRun(s, d);
    if n == 0 then None
    else if d + n < |s| && IsDecimalSep(s[d + n]) then
      Some(d + n + 1 + Min2(DigitRun(s, d + n + 1)))
    else Some(d + n)
  }

  /** `\b\d+[.,]?\d{0,2}\b` at index `p`: the end of the match, if any.
      With `a` the end of the digit run: when a separator follows, the
      matcher first keeps the separator and up to two fraction digits (this
      succeeds only when the whole fraction run is one or two digits and a
      word boundary follows), then the separator alone (which succeeds when a
      word character follows it), then the digits alone (which always
      succeeds, the separator not being a word character).  Without a
      separator the digit run must end on a word boundary; giving back digits
      never helps, since the next character is then a digit. */
  function NumberMatchAt(s: string, p: nat): (e: Option<nat>)
    requires p <= |s|
    ensures e.Some? ==> p < e.value <= |s|
  {
    if p < |s| && IsDigit(s[p]) && (p == 0 || !IsWord(s[p - 1])) then
      var a := p + DigitRun(s, p);
      if a < |s| && IsDecimalSep(s[a]) then
        var q := DigitRun(s, a + 1);
        if 1 <= q <= 2 && (a + 1 + q == |s| || !IsWord(s[a + 1 + q])) then Some(a + 1 + q)
        else if a + 1 < |s| && IsWord(s[a + 1]) then Some(a + 1)
        else Some(a)
      else if a == |s| || !IsWord(s[a]) then Some(a)
      else None
    else None
  }

  /** The alternation at index `p`: the `$` branch first. */
  function MatchAt(s: string, p: nat): (e: Option<nat>)
    requires p <= |s|
    ensures e.Some? ==> p < e.value <= |s|
  {
    match DollarMatchAt(s, p)
    case Some(e) => Some(e)
    case None => NumberMatchAt(s, p)
  }

  datatype Span = Span(start: nat, end: nat)

  /** `re.search` from index `p`: the leftmost index where the pattern
      matches, and the end of that match. */
  function Search(s: string, p: nat): (m: Option<Span>)
    requires p <= |s|
    ensures m.Some? ==> p <= m.value.start < m.value.end <= |s| && MatchAt(s, m.value.start) == Some(m.value.end)
    ensures forall q :: p <= q < |s| && (m.None? || q < m.value.start) ==> MatchAt(s, q).None?
    decreases |s| - p
  {
    if p == |s| then None
    else match MatchAt(s, p)
      case Some(e) => Some(Span(p, e))
      case None => Search(s, p + 1)
  }

  /** `\d+[.,]?\d{0,2}` as a whole token: a digit run, then optionally a
      separator and at most two digits. */
  predicate IsNumeral(t: string) {
    var n := DigitRun(t, 0);
    n >= 1 && (n == |t| || (IsDecimalSep(t[n]) && |t| - n - 1 <= 2 && AllDigits(t[n + 1..])))
  }

  /** The value of a numeral, reading either separator as the decimal point. */
  function NumeralValue(t: string): real
    requires IsNumeral(t)
  {
    var n := DigitRun(t, 0);
    if n == |t| then DigitsValue(t) as real else DecimalValue(t[..n], t[n + 1..])
  }

  /** `(raw, numeric)`: the price token with spaces removed, and its value
      when it carries no currency sign. */
  datatype PriceMatch = PriceMatch(raw: string, numeric: Option<real>)

  /** `_extract_price(line)` */
  function ExtractPrice(line: string): (r: PriceMatch)
    ensures ' ' !in r.raw
    ensures r.raw == [] ==> r.numeric.None?
    ensures r.raw != [] ==> HasDigit(r.raw)
    ensures '$' in r.raw ==> r.numeric.None?
    ensures r.raw != [] && '$' !in r.raw ==> IsNumeral(r.raw) && r.numeric == Some(NumeralValue(r.raw))
    ensures !HasDigit(line) ==> r == PriceMatch("", None)
    ensures Search(line, 0).None? ==> r == PriceMatch("", None)
    ensures Search(line, 0).Some? ==>
              r.raw == RemoveChar(line[Search(line, 0).value.start..Search(line, 0).value.end], ' ')
  {
    match Search(line, 0)
    case None => PriceMatch("", None)
    case Some(m) =>
      RawShape(line, m.start, m.end);
      ReadToken(RemoveChar(line[m.start..m.end], ' '))
  }

  /** The token is the leftmost match with its spaces removed. */
  lemma TokenOfMatch(line: string, m: Span)
    requires Search(line, 0) == Some(m)
    ensures ExtractPrice(line).raw == RemoveChar(line[m.start..m.end], ' ')
  {
  }

  /** A line can hold a digit and still give no token: in "a1" no word
      boundary precedes the `1`, and there is no `$`. */
  lemma DigitWithoutToken()
    ensures HasDigit("a1") && ExtractPrice("a1") == PriceMatch("", None)
  {
    assert IsDigit("a1"[1]);
    assert MatchAt("a1", 0).None? && MatchAt("a1", 1).None?;
    assert Search("a1", 0).None?;
  }

  /** Lines 40-49: a token with a currency sign is kept literal, any other
      is read by `float()` with the comma taken as the decimal point. */
  function ReadToken(raw: string): (r: PriceMatch)
    requires HasDigit(raw) && ((IsNumeral(raw) && '$' !in raw) || '$' in raw)
    ensures r.raw == raw
    ensures '$' in raw ==> r.numeric.None?
    ensures '$' !in raw ==> r.numeric == Some(NumeralValue(raw))
  {
    if HasCurrencySign(raw) then PriceMatch(raw, None)
    else
      NumeralParses(raw);
      match ParseDecimal(ReplaceChar(raw, ',', '.'))
      case Some(v) => PriceMatch(raw, Some(v))
      case None => PriceMatch(raw, None)  // the `except ValueError` branch, never taken
  }

  /** What one match looks like once spaces are removed: `$`, non-space
      whitespace and a numeral, or a bare numeral. */
  lemma RawShape(s: string, p: nat, e: nat)
    requires p <= |s| && MatchAt(s, p) == Some(e)
    ensures var raw := RemoveChar(s[p..e], ' ');
      HasDigit(raw) && ((IsNumeral(raw) && '$' !in raw) || '$' in raw)
  {
    if DollarMatchAt(s, p).Some? {
      DollarRawShape(s, p, e);
    } else {
      NumberShape(s, p, e);
      NumeralRawShape(s[p..e]);
    }
  }

  lemma DollarRawShape(s: string, p: nat, e: nat)
    requires p <= |s| && DollarMatchAt(s, p) == Some(e)
    ensures var raw := RemoveChar(s[p..e], ' '); HasDigit(raw) && '$' in raw
  {
    var d := DollarStart(s, p, e);
    SignThenNumeral(s, p, d, e);
  }

  /** The `$` alternative matches `$`, then whitespace up to `d`, then a
      numeral. */
  lemma DollarStart(s: string, p: nat, e: nat) returns (d: nat)
    requires p <= |s| && DollarMatchAt(s, p) == Some(e)
    ensures p < d < e && s[p] == '$' && IsNumeral(s[d..e])
  {
    d := p + 1 + SpaceRun(s, p + 1);
    assert NumeralEnd(s, d) == Some(e);
    NumeralEndShape(s, d);
  }

  lemma SignThenNumeral(s: string, p: nat, d: nat, e: nat)
    requires p < d < e <= |s| && s[p] == '$' && IsNumeral(s[d..e])
    ensures var raw := RemoveChar(s[p..e], ' '); HasDigit(raw) && '$' in raw
  {
    assert s[p..e][d - p..] == s[d..e];
    DollarRaw(s[p..e], d - p);
  }

  lemma NumeralRawShape(t: string)
    requires IsNumeral(t)
    ensures RemoveChar(t, ' ') == t && HasDigit(t) && '$' !in t
  {
    NumeralHasDigit(t);
    NumeralHasNoSpace(t);
    RemoveCharAbsent(t, ' ');
    NumeralHasNoDollar(t);
  }

  /** A numeral holds no `$`. */
  lemma NumeralHasNoDollar(t: string)
    requires IsNumeral(t)
    ensures '$' !in t
  {
    var n := DigitRun(t, 0);
    forall i | 0 <= i < |t| ensures t[i] != '$' {
      if i > n { assert t[n + 1..][i - n - 1] == t[i]; }
    }
  }

  /** `$`, then anything, then a numeral from index `d`: removing spaces
      keeps the `$` and the numeral's digits. */
  lemma DollarRaw(t: string, d: nat)
    requires 0 < d < |t| && t[0] == '$' && IsNumeral(t[d..])
    ensures var raw := RemoveChar(t, ' '); HasDigit(raw) && '$' in raw
  {
    RemoveCharSplit(t, d, ' ');
    NumeralHasNoSpace(t[d..]);
    RemoveCharAbsent(t[d..], ' ');
    var head := RemoveChar(t[..d], ' ');
    assert head[0] == '$';
    var raw := RemoveChar(t, ' ');
    assert raw == head + t[d..];
    assert raw[0] == '$';
    assert IsDigit(t[d..][0]);
    assert raw[|head|] == t[d..][0];
  }

  /** What the greedy numeral matches is a numeral. */
  lemma NumeralEndShape(s: string, d: nat)
    requires d <= |s| && NumeralEnd(s, d).Some?
    ensures IsNumeral(s[d..NumeralEnd(s, d).value])
  {
    NumeralOfSlice(s, d, DigitRun(s, d), NumeralEnd(s, d).value);
  }

  /** The bare-number alternative matches a numeral. */
  lemma NumberShape(s: string, p: nat, e: nat)
    requires p <= |s| && DollarMatchAt(s, p).None? && NumberMatchAt(s, p) == Some(e)
    ensures IsNumeral(s[p..e])
  {
    NumeralOfSlice(s, p, DigitRun(s, p), e);
  }

  /** A digit run of `n` at `d`, optionally followed by a separator and at
      most two of the digits after it, is a numeral. */
  lemma NumeralOfSlice(s: string, d: nat, n: nat, e: nat)
    requires d <= |s| && DigitRun(s, d) == n >= 1
    requires e == d + n || (d + n < |s| && IsDecimalSep(s[d + n]) &&
      d + n + 1 <= e <= d + n + 1 + Min2(DigitRun(s, d + n + 1)))
    ensures IsNumeral(s[d..e])
  {
    var t := s[d..e];
    DigitRunSlice(s, d, e);
    assert DigitRun(t, 0) == n;
    if e != d + n {
      assert t[n] == s[d + n];
      assert t[n + 1..] == s[d + n + 1..e];
      assert AllDigits(s[d + n + 1..e]);
    }
  }

  /** The digit run at `d` of `s` is the digit run at the start of any
      slice `s[d..e]` that it does not overrun. */
  lemma DigitRunSlice(s: string, d: nat, e: nat)
    requires d <= e <= |s|
    ensures DigitRun(s[d..e], 0) == if d + DigitRun(s, d) <= e then DigitRun(s, d) else e - d
    decreases e - d
  {
    if d < e && IsDigit(s[d]) {
      DigitRunSlice(s, d + 1, e);
      DigitRunShift(s[d..e]);
      assert s[d..e][1..] == s[d + 1..e];
    }
  }

  lemma DigitRunShift(t: string)
    requires |t| > 0 && IsDigit(t[0])
    ensures DigitRun(t, 0) == 1 + DigitRun(t[1..], 0)
  {
    DigitRunFrom(t, 1);
  }

  /** Counting from index `i` of `t` is counting from the start of `t[i..]`. */
  lemma DigitRunFrom(t: string, i: nat)
    requires i <= |t|
    ensures DigitRun(t, i) == DigitRun(t[i..], 0)
    decreases |t| - i
  {
    if i < |t| && IsDigit(t[i]) {
      DigitRunFrom(t, i + 1);
      DigitRunFrom(t[i..], 1);
      assert t[i..][1..] == t[i + 1..];
    }
  }

  lemma NumeralHasDigit(t: string)
    requires IsNumeral(t)
    ensures HasDigit(t)
  {
    assert IsDigit(t[0]);
  }

  lemma NumeralHasNoSpace(t: string)
    requires IsNumeral(t)
    ensures ' ' !in t
  {
    var n := DigitRun(t, 0);
    forall i | 0 <= i < |t| ensures t[i] != ' ' {
      if i > n { assert t[n + 1..][i - n - 1] == t[i]; }
    }
  }

  /** A numeral holds only digits and a separator, so no currency sign. */
  lemma NumeralHasNoCurrency(t: string)
    requires IsNumeral(t)
    ensures !HasCurrencySign(t)
  {
    var n := DigitRun(t, 0);
    forall i | 0 <= i < |t| ensures IsDigit(t[i]) || IsDecimalSep(t[i]) {
      if i > n { assert t[n + 1..][i - n - 1] == t[i]; }
    }
  }

  lemma RemoveCharAbsent(t: string, c: char)
    requires c !in t
    ensures RemoveChar(t, c) == t
  {
    if t != [] {
      RemoveCharAbsent(t[1..], c);
    }
  }

  lemma RemoveCharSplit(t: string, k: nat, c: char)
    requires k <= |t|
    ensures RemoveChar(t, c) == RemoveChar(t[..k], c) + RemoveChar(t[k..], c)
  {
    assert t == t[..k] + t[k..];
    RemoveCharConcat(t[..k], t[k..], c);
  }

  lemma {:induction false} RemoveCharConcat(a: string, b: string, c: char)
    ensures RemoveChar(a + b, c) == RemoveChar(a, c) + RemoveChar(b, c)
  {
    if a != [] {
      RemoveCharConcat(a[1..], b, c);
      assert (a + b)[1..] == a[1..] + b;
      assert (a + b)[0] == a[0];
    } else {
      assert a + b == b;
    }
  }

  /** The `except ValueError` branch is dead: a numeral, commas read as
      points, is always accepted by `float()`, with the numeral's value. */
  lemma NumeralParses(t: string)
    requires IsNumeral(t) || HasCurrencySign(t)
    ensures !HasCurrencySign(t) ==> ParseDecimal(ReplaceChar(t, ',', '.')) == Some(NumeralValue(t))
  {
    if !HasCurrencySign(t) {
      var u := ReplaceChar(t, ',', '.');
      PointedNumeral(t);
      PointedUnsigned(t, u);
      UnsignedIsDecimal(u);
    }
  }

  /** With commas read as points, a numeral keeps its digit run and has a
      point where it had a separator. */
  lemma PointedNumeral(t: string)
    requires IsNumeral(t)
    ensures var u := ReplaceChar(t, ',', '.'); var n := DigitRun(t, 0);
      |u| == |t| && DigitRun(u, 0) == n && u[..n] == t[..n] &&
      (n < |t| ==> u[n] == '.' && u[n + 1..] == t[n + 1..])
  {
    DigitRunReplace(t, 0);
  }

  lemma PointedUnsigned(t: string, u: string)
    requires IsNumeral(t)
    requires var n := DigitRun(t, 0);
      |u| == |t| && DigitRun(u, 0) == n && u[..n] == t[..n] &&
      (n < |t| ==> u[n] == '.' && u[n + 1..] == t[n + 1..])
    ensures ParseUnsigned(u) == Some(NumeralValue(t))
    ensures IsDigit(u[0]) && (IsDigit(u[|u| - 1]) || u[|u| - 1] == '.')
  {
    var n := DigitRun(t, 0);
    if n == |t| {
      assert u == u[..n] && t == t[..n];
    } else {
      assert AllDigits(u[n + 1..]);
      if |u| > n + 1 {
        assert u[|u| - 1] == u[n + 1..][|u| - n - 2];
      }
    }
  }

  /** `float()` of a string that starts with a digit and ends in a digit
      or a point is the unsigned reading. */
  lemma UnsignedIsDecimal(u: string)
    requires |u| > 0 && IsDigit(u[0]) && (IsDigit(u[|u| - 1]) || u[|u| - 1] == '.')
    ensures ParseDecimal(u) == ParseUnsigned(u)
  {
    StripUntouched(u);
  }

  /** A string that neither starts nor ends with whitespace is its own strip. */
  lemma StripUntouched(u: string)
    requires u != [] && !IsSpace(u[0]) && !IsSpace(u[|u| - 1])
    ensures Strip(u) == u
  {
    var lo, hi := StripByShape(u, Spaces);
    assert lo == 0;
    assert hi == |u|;
    assert u[0..|u|] == u;
  }

  /** Replacing commas by points leaves digit runs alone. */
  lemma DigitRunReplace(t: string, i: nat)
    requires i <= |t|
    ensures DigitRun(ReplaceChar(t, ',', '.'), i) == DigitRun(t, i)
    decreases |t| - i
  {
    if i < |t| {
      DigitRunReplace(t, i + 1);
    }
  }

  /** A comma is read as the decimal point. */
  lemma CommaDecimal()
    ensures ExtractPrice("12,50") == PriceMatch("12,50", Some(12.5))
  {
    var s := "12,50";
    assert DigitRun(s, 5) == 0;
    assert DigitRun(s, 4) == 1;
    assert DigitRun(s, 3) == 2;
    assert DigitRun(s, 2) == 0;
    assert DigitRun(s, 1) == 1;
    assert DigitRun(s, 0) == 2;
    assert s[3..] == "50";
    assert IsNumeral(s);
    ReExtractNumeral(s);
    TwelveFifty();
  }

  lemma TwelveFifty()
    ensures IsNumeral("12,50") && NumeralValue("12,50") == 12.5
  {
    var s := "12,50";
    assert DigitRun(s, 5) == 0;
    assert DigitRun(s, 4) == 1;
    assert DigitRun(s, 3) == 2;
    assert DigitRun(s, 2) == 0;
    assert DigitRun(s, 1) == 1;
    assert DigitRun(s, 0) == 2;
    assert s[..2] == "12" && s[3..] == "50";
    assert "12"[..1] == "1" && "50"[..1] == "5";
    assert DigitsValue("12") == 12;
    assert DigitsValue("50") == 50;
    assert Pow10(2) == 100;
    assert DecimalValue("12", "50") == 12.5;
  }

  /** A bare numeral that ends in a digit is found whole again: the round
      trip holds for such tokens. */
  lemma ReExtractNumeral(t: string)
    requires IsNumeral(t) && IsDigit(t[|t| - 1])
    ensures ExtractPrice(t) == PriceMatch(t, Some(NumeralValue(t)))
  {
    NumeralMatchesWhole(t);
    TokenOfMatch(t, Span(0, |t|));
    assert t[0..|t|] == t;
    NumeralHasNoSpace(t);
    RemoveCharAbsent(t, ' ');
    NumeralHasNoDollar(t);
  }

  /** A numeral ending in a digit is matched whole, from its first
      character. */
  lemma NumeralMatchesWhole(t: string)
    requires IsNumeral(t) && IsDigit(t[|t| - 1])
    ensures Search(t, 0) == Some(Span(0, |t|))
  {
    var n := DigitRun(t, 0);
    assert DollarMatchAt(t, 0).None?;
    if n < |t| {
      var q := DigitRun(t, n + 1);
      assert t[n + 1..][|t| - n - 2] == t[|t| - 1];
      assert q == |t| - n - 1;
    }
    assert NumberMatchAt(t, 0) == Some(|t|);
  }

  /** The round trip fails for a three-digit fraction: the token kept is
      the digits and the separator ... */
  lemma TruncatedFraction()
    ensures ExtractPrice("12.345") == PriceMatch("12.", Some(12.0))
  {
    TruncatedSearch();
    assert "12.345"[0..3] == "12.";
    TwelvePoint();
    PlainPrice("12.345", Span(0, 3), "12.");
  }

  lemma TruncatedSearch()
    ensures Search("12.345", 0) == Some(Span(0, 3))
  {
    var s := "12.345";
    assert DigitRun(s, 6) == 0; assert DigitRun(s, 5) == 1;
    assert DigitRun(s, 4) == 2; assert DigitRun(s, 3) == 3;
    assert DigitRun(s, 2) == 0; assert DigitRun(s, 1) == 1; assert DigitRun(s, 0) == 2;
    assert DollarMatchAt(s, 0).None?;
    assert NumberMatchAt(s, 0) == Some(3);
  }

  lemma TwelvePoint()
    ensures IsNumeral("12.") && NumeralValue("12.") == 12.0 && RemoveChar("12.", ' ') == "12."
  {
    var t := "12.";
    assert DigitRun(t, 3) == 0; assert DigitRun(t, 2) == 0;
    assert DigitRun(t, 1) == 1; assert DigitRun(t, 0) == 2;
    assert t[..2] == "12" && t[3..] == "";
    assert "12"[..1] == "1";
    assert DigitsValue("12") == 12;
    assert DecimalValue("12", "") == 12.0;
    NumeralRawShape(t);
  }

  /** A leftmost match whose token is a numeral gives that token and its
      value. */
  lemma PlainPrice(line: string, m: Span, tok: string)
    requires Search(line, 0) == Some(m)
    requires RemoveChar(line[m.start..m.end], ' ') == tok && IsNumeral(tok)
    ensures ExtractPrice(line) == PriceMatch(tok, Some(NumeralValue(tok)))
  {
    TokenOfMatch(line, m);
    NumeralRawShape(tok);
  }

  /** ... and that token itself re-extracts without the separator. */
  lemma TrailingSeparatorDropped()
    ensures ExtractPrice("12.") == PriceMatch("12", Some(12.0))
  {
    TrailingSearch();
    assert "12."[0..2] == "12";
    PlainTwelve();
    PlainPrice("12.", Span(0, 2), "12");
  }

  lemma TrailingSearch()
    ensures Search("12.", 0) == Some(Span(0, 2))
  {
    var t := "12.";
    assert DigitRun(t, 3) == 0; assert DigitRun(t, 2) == 0;
    assert DigitRun(t, 1) == 1; assert DigitRun(t, 0) == 2;
    assert DollarMatchAt(t, 0).None?;
    assert NumberMatchAt(t, 0) == Some(2);
  }

  lemma PlainTwelve()
    ensures IsNumeral("12") && NumeralValue("12") == 12.0 && RemoveChar("12", ' ') == "12"
  {
    assert DigitRun("12", 2) == 0; assert DigitRun("12", 1) == 1; assert DigitRun("12", 0) == 2;
    assert "12"[..1] == "1";
    assert DigitsValue("12") == 12;
    NumeralRawShape("12");
  }

  /** A `$` token keeps its sign and has no numeric value. */
  lemma DollarKeptLiteral()
    ensures ExtractPrice("Soup $12.00") == PriceMatch("$12.00", None)
  {
    DollarSearch();
    DollarToken();
    SignedPrice("Soup $12.00", Span(5, 11), "$12.00");
  }

  /** A leftmost match whose token holds `$` gives that token and no
      value. */
  lemma SignedPrice(line: string, m: Span, tok: string)
    requires Search(line, 0) == Some(m)
    requires RemoveChar(line[m.start..m.end], ' ') == tok && '$' in tok
    ensures ExtractPrice(line) == PriceMatch(tok, None)
  {
    TokenOfMatch(line, m);
  }

  lemma DollarToken()
    ensures RemoveChar("Soup $12.00"[5..11], ' ') == "$12.00" && '$' in "$12.00"
  {
    assert "Soup $12.00"[5..11] == "$12.00";
    RemoveCharAbsent("$12.00", ' ');
    assert "$12.00"[0] == '$';
  }

  lemma DollarSearch()
    ensures Search("Soup $12.00", 0) == Some(Span(5, 11))
  {
    var s := "Soup $12.00";
    assert SpaceRun(s, 6) == 0;
    assert DigitRun(s, 11) == 0; assert DigitRun(s, 10) == 1; assert DigitRun(s, 9) == 2;
    assert DigitRun(s, 8) == 0; assert DigitRun(s, 7) == 1; assert DigitRun(s, 6) == 2;
    assert MatchAt(s, 5) == Some(11);
    NoMatchBefore(s, 5);
  }

  /** No match starts before `k` (the characters there are neither digits
      nor `$`), so the search from 0 is the search from `k`. */
  lemma {:induction false} NoMatchBefore(s: string, k: nat)
    requires k <= |s|
    requires forall q :: 0 <= q < k ==> !IsDigit(s[q]) && s[q] != '$'
    ensures Search(s, 0) == Search(s, k)
    decreases k
  {
    if k > 0 {
      NoMatchBefore(s, k - 1);
      assert MatchAt(s, k - 1).None?;
    }
  }
}
