/** The heuristic segmentation of `ParseMenuUseCase.execute`
    (src/application/use_cases/parse_menu.py, lines 60-137): the OCR text is
    cut into lines, and the lines are walked once with a current category and
    at most one dish in progress.

    The walk is specified by the function `Step` on an explicit `State`; the
    method `SegmentLines` is the loop of the source and is proved to compute
    the fold of `Step`. */
module Segmentation {
  import opened Strings
  import opened Heading
  import opened Price

  /** The `price` key of a dish: the number read from the token, or the
      token itself when it carries a currency sign. */
  datatype DishPrice = Numeric(value: real) | Literal(token: string)

  /** One output record.  `id` stands for `dish_id`; the optional `price`
      and `description` keys are `Option`s. */
  datatype Dish = Dish(id: nat, name: string, category: string, price: Option<DishPrice>, description: Option<string>)

  /** `current_dish` while it is open: the record so far and its
      `description_parts`. */
  datatype Draft = Draft(id: nat, name: string, category: string, price: Option<DishPrice>, parts: seq<string>)

  /** The loop's variables: `items`, `current_category`, `current_dish`, and
      the next fresh id (the model of `uuid.uuid4()`). */
  datatype State = State(items: seq<Dish>, category: Option<string>, dish: Option<Draft>, nextId: nat)

  const Uncategorized := "UNCATEGORIZED"

  // ----- Line preparation (lines 60-61) -----

  /** The line boundaries of `str.splitlines()` within the ASCII range:
      U+000A..U+000D and U+001C..U+001E. */
  predicate IsLineBreak(c: char) {
    '\n' <= c <= '\r' || '\U{1C}' <= c <= '\U{1E}'
  }

  predicate NoBreak(s: string) {
    forall i :: 0 <= i < |s| ==> !IsLineBreak(s[i])
  }

  /** Index of the first line boundary, if any. */
  function BreakAt(s: string): (k: Option<nat>)
    ensures k.Some? ==> k.value < |s| && IsLineBreak(s[k.value]) && NoBreak(s[..k.value])
    ensures k.None? ==> NoBreak(s)
  {
    if s == [] then None
    else if IsLineBreak(s[0]) then Some(0)
    else match BreakAt(s[1..]) {
      case None => None
      case Some(j) => assert s[..j + 1] == [s[0]] + s[1..][..j]; Some(j + 1)
    }
  }

  /** `s.splitlines()`: the pieces between boundaries, `\r\n` counting as one
      boundary, and no empty piece after a final boundary. */
  function SplitLines(s: string): (ls: seq<string>)
    ensures forall k :: 0 <= k < |ls| ==> NoBreak(ls[k])
    decreases |s|
  {
    match BreakAt(s)
    case None => if s == [] then [] else [s]
    case Some(k) =>
      var next := if s[k] == '\r' && k + 1 < |s| && s[k + 1] == '\n' then k + 2 else k + 1;
      [s[..k]] + SplitLines(s[next..])
  }

  /** The text with every line boundary written as `\n`, a `\r\n` pair
      as one. */
  function Unbreak(s: string): string
    decreases |s|
  {
    if s == [] then []
    else if s[0] == '\r' && |s| > 1 && s[1] == '\n' then "\n" + Unbreak(s[2..])
    else (if IsLineBreak(s[0]) then "\n" else [s[0]]) + Unbreak(s[1..])
  }

  /** The lines written out, each closed by `\n`. */
  function JoinLines(ls: seq<string>): string
    decreases |ls|
  {
    if ls == [] then [] else ls[0] + "\n" + JoinLines(ls[1..])
  }

  /** The text closed by a final `\n` unless it is empty or has one. */
  function Terminated(t: string): string {
    if t == [] || t[|t| - 1] == '\n' then t else t + "\n"
  }

  /** Writing the pieces back, each closed by `\n`, gives the text with its
      boundaries written as `\n` and a final boundary added when it has
      none.  As no piece holds a boundary, this fixes the pieces: they are
      the text's lines, in order. */
  lemma {:induction false} SplitLinesJoin(s: string)
    ensures JoinLines(SplitLines(s)) == Terminated(Unbreak(s))
    decreases |s|
  {
    match BreakAt(s)
    case None =>
      UnbreakPlain(s, []);
      assert s + [] == s;
      if s != [] {
        assert JoinLines(SplitLines(s)) == s + "\n" + JoinLines([]);
        assert s[|s| - 1] != '\n';
      }
    case Some(k) =>
      var next := if s[k] == '\r' && k + 1 < |s| && s[k + 1] == '\n' then k + 2 else k + 1;
      var rest := s[next..];
      assert SplitLines(s) == [s[..k]] + SplitLines(rest);
      assert ([s[..k]] + SplitLines(rest))[1..] == SplitLines(rest);
      SplitLinesJoin(rest);
      UnbreakAtBreak(s, k, next);
      TerminatedAfter(s[..k], Unbreak(rest));
  }

  /** Text without boundaries is kept as it is in front of the rest. */
  lemma {:induction false} UnbreakPlain(a: string, b: string)
    requires NoBreak(a)
    ensures Unbreak(a + b) == a + Unbreak(b)
    decreases |a|
  {
    if a != [] {
      assert (a + b)[0] == a[0] && !IsLineBreak(a[0]);
      assert (a + b)[1..] == a[1..] + b;
      UnbreakPlain(a[1..], b);
      assert a == [a[0]] + a[1..];
    } else {
      assert a + b == b;
    }
  }

  /** The first boundary, one or two characters long, becomes one `\n`. */
  lemma UnbreakAtBreak(s: string, k: nat, next: nat)
    requires k < |s| && IsLineBreak(s[k]) && NoBreak(s[..k])
    requires next == if s[k] == '\r' && k + 1 < |s| && s[k + 1] == '\n' then k + 2 else k + 1
    ensures Unbreak(s) == s[..k] + "\n" + Unbreak(s[next..])
  {
    var a, t := s[..k], s[k..];
    assert s == a + t;
    assert t[0] == s[k] && (k + 1 < |s| ==> t[1] == s[k + 1]);
    assert t[next - k..] == s[next..];
    UnbreakJoin(a, t, next - k);
  }

  lemma UnbreakJoin(a: string, t: string, n: nat)
    requires NoBreak(a) && t != [] && IsLineBreak(t[0])
    requires n == if t[0] == '\r' && |t| > 1 && t[1] == '\n' then 2 else 1
    ensures Unbreak(a + t) == a + "\n" + Unbreak(t[n..])
  {
    UnbreakHead(t, n);
    UnbreakPlain(a, t);
    var u := Unbreak(t[n..]);
    assert a + ("\n" + u) == a + "\n" + u;
  }

  lemma UnbreakHead(t: string, n: nat)
    requires t != [] && IsLineBreak(t[0])
    requires n == if t[0] == '\r' && |t| > 1 && t[1] == '\n' then 2 else 1
    ensures Unbreak(t) == "\n" + Unbreak(t[n..])
  {
  }

  lemma TerminatedAfter(x: string, u: string)
    ensures Terminated(x + "\n" + u) == x + "\n" + Terminated(u)
  {
    if u == [] {
      assert x + "\n" + u == x + "\n";
    } else {
      assert (x + "\n" + u)[|x + "\n" + u| - 1] == u[|u| - 1];
    }
  }

  /** `[ln.rstrip() for ln in lines if ln.strip()]`: every line kept is
      non-blank and has no trailing whitespace, and it stays within one line
      of the text. */
  function KeepNonBlank(ls: seq<string>): (r: seq<string>)
    ensures |r| <= |ls|
    ensures forall k :: 0 <= k < |r| ==> LineShape(r[k])
    ensures (forall k :: 0 <= k < |ls| ==> NoBreak(ls[k])) ==> forall k :: 0 <= k < |r| ==> NoBreak(r[k])
    decreases |ls|
  {
    if ls == [] then []
    else
      var rest := KeepNonBlank(ls[1..]);
      assert forall k :: 0 <= k < |ls| - 1 ==> ls[1..][k] == ls[k + 1];
      if Strip(ls[0]) != [] then
        RStripKeepsText(ls[0]);
        [RStrip(ls[0])] + rest
      else rest
  }

  /** Exactly the non-blank lines are kept, each right-stripped. */
  lemma KeepNonBlankMembers(ls: seq<string>)
    ensures forall x :: x in ls && Strip(x) != [] ==> RStrip(x) in KeepNonBlank(ls)
    ensures forall y :: y in KeepNonBlank(ls) ==> exists x :: x in ls && Strip(x) != [] && y == RStrip(x)
  {
    KeepNonBlankKeeps(ls);
    KeepNonBlankSources(ls);
  }

  lemma {:induction false} KeepNonBlankKeeps(ls: seq<string>)
    ensures forall x :: x in ls && Strip(x) != [] ==> RStrip(x) in KeepNonBlank(ls)
    decreases |ls|
  {
    if ls != [] {
      KeepNonBlankKeeps(ls[1..]);
      assert forall x :: x in ls ==> x == ls[0] || x in ls[1..];
    }
  }

  lemma {:induction false} KeepNonBlankSources(ls: seq<string>)
    ensures forall y :: y in KeepNonBlank(ls) ==> exists x :: x in ls && Strip(x) != [] && y == RStrip(x)
    decreases |ls|
  {
    if ls != [] {
      KeepNonBlankSources(ls[1..]);
      assert forall x :: x in ls[1..] ==> x in ls;
    }
  }

  /** The filter works line by line, so the kept lines keep their order. */
  lemma {:induction false} KeepNonBlankConcat(a: seq<string>, b: seq<string>)
    ensures KeepNonBlank(a + b) == KeepNonBlank(a) + KeepNonBlank(b)
    decreases |a|
  {
    if a != [] {
      assert (a + b)[0] == a[0];
      assert (a + b)[1..] == a[1..] + b;
      KeepNonBlankConcat(a[1..], b);
    } else {
      assert a + b == b;
    }
  }

  /** On one line: kept, right-stripped, exactly when it is not blank. */
  lemma KeepNonBlankOne(l: string)
    ensures KeepNonBlank([l]) == if IsBlank(l) then [] else [RStrip(l)]
  {
    StripEmptyIffBlank(l);
    assert [l][1..] == [];
  }

  /** A non-blank line without trailing whitespace. */
  predicate LineShape(l: string) {
    |l| > 0 && !IsSpace(l[|l| - 1])
  }

  lemma RStripKeepsText(l: string)
    requires Strip(l) != []
    ensures LineShape(RStrip(l))
    ensures NoBreak(l) ==> NoBreak(RStrip(l))
  {
    StripEmptyIffBlank(l);
    var i :| 0 <= i < |l| && !IsSpace(l[i]);
    var r := RStrip(l);
    assert i < |r|;
    assert r[i] == l[i];
  }

  /** Line 60: the EasyOCR text when it is not blank, else the Tesseract
      text, stripped. */
  function ChosenText(easy: string, tess: string): string {
    if Strip(easy) != [] then Strip(easy) else Strip(tess)
  }

  /** Line 61: the non-blank lines of the text, right-stripped. */
  function PrepareLines(text: string): (ls: seq<string>)
    ensures forall k :: 0 <= k < |ls| ==> LineShape(ls[k]) && NoBreak(ls[k])
  {
    KeepNonBlank(SplitLines(text))
  }

  /** The prepared lines are the right-stripped non-blank lines of the
      text, and a text of one non-blank line gives that line alone,
      right-stripped. */
  lemma PrepareLinesSpec(text: string)
    ensures forall x :: x in SplitLines(text) && Strip(x) != [] ==> RStrip(x) in PrepareLines(text)
    ensures forall y :: y in PrepareLines(text) ==>
              exists x :: x in SplitLines(text) && Strip(x) != [] && y == RStrip(x)
    ensures NoBreak(text) && !IsBlank(text) ==> PrepareLines(text) == [RStrip(text)]
  {
    KeepNonBlankMembers(SplitLines(text));
    if NoBreak(text) && !IsBlank(text) {
      assert SplitLines(text) == [text];
      KeepNonBlankOne(text);
    }
  }

  // ----- One step of the walk (lines 67-126) -----

  /** `re.match(r"^[A-Z\s\-\'\&]+$", s)`: only capitals, whitespace and
      `-'&`, and at least one character. */
  predicate IsCapsLine(s: string) {
    |s| > 0 && forall i :: 0 <= i < |s| ==> CapsLineChar(s[i])
  }

  predicate CapsLineChar(c: char) {
    'A' <= c <= 'Z' || IsSpace(c) || c == '-' || c == '\'' || c == '&'
  }

  /** Line 92: a line continues the open dish when it starts with a
      lower-case letter or whitespace, or has no numeric price, and is not
      an all-capitals line. */
  predicate Continues(line: string) {
    ((|line| > 0 && (IsLower(line[0]) || IsSpace(line[0]))) || ExtractPrice(line).numeric.None?)
    && !IsCapsLine(Strip(line))
  }

  /** Lines 102-106: what precedes the first occurrence of the price token,
      without the surrounding name marks, or the whole stripped line when
      that is empty or there is no token.  When the token had its spaces
      removed it may not occur at all; `find` then gives -1 and the slice
      drops the last character. */
  function NamePart(line: string, raw: string): string {
    if raw != [] then
      var name := StripBy(SliceTo(line, Find(line, raw)), NameMarks);
      if name != [] then name else Strip(line)
    else Strip(line)
  }

  /** Lines 118-122 */
  function PriceOf(pm: PriceMatch): Option<DishPrice> {
    if pm.raw == [] then None
    else match pm.numeric
      case Some(v) => Some(Numeric(v))
      case None => Some(Literal(pm.raw))
  }

  /** `current_category or "UNCATEGORIZED"` */
  function CategoryOr(c: Option<string>): string {
    match c
    case Some(s) => if s != [] then s else Uncategorized
    case None => Uncategorized
  }

  function StripAll(parts: seq<string>): (r: seq<string>)
    ensures |r| == |parts|
    ensures forall i :: 0 <= i < |parts| ==> r[i] == Strip(parts[i])
  {
    seq(|parts|, i requires 0 <= i < |parts| => Strip(parts[i]))
  }

  /** Lines 71-75: the stripped parts joined by spaces and stripped, kept
      only when non-empty. */
  function Describe(parts: seq<string>): Option<string> {
    var desc := Strip(Join(" ", StripAll(parts)));
    if desc != [] then Some(desc) else None
  }

  /** `flush_current` on the dish: the record without its parts. */
  function Finalize(d: Draft): Dish {
    Dish(d.id, d.name, d.category, d.price, Describe(d.parts))
  }

  /** `flush_current()` (lines 67-78) */
  function Flush(st: State): State {
    match st.dish
    case None => st
    case Some(d) => st.(items := st.items + [Finalize(d)], dish := None)
  }

  /** One turn of the loop at lines 80-126. */
  function Step(st: State, line: string): State {
    if IsSectionHeading(line) then
      Flush(st).(category := Some(Strip(line)))
    else if st.dish.Some? && Continues(line) then
      st.(dish := Some(st.dish.value.(parts := st.dish.value.parts + [line])))
    else DishLine(Flush(st), line)
  }

  /** Lines 100-126, reached with no dish open: the line either names a
      category or opens a dish with the next fresh id. */
  function DishLine(st: State, line: string): State {
    var pm := ExtractPrice(line);
    var name := NamePart(line, pm.raw);
    if IsSectionHeading(name) then st.(category := Some(name))
    else
      var d := Draft(st.nextId, name, Upper(CategoryOr(st.category)), PriceOf(pm), []);
      st.(dish := Some(d), nextId := st.nextId + 1)
  }

  function Start(firstId: nat): State {
    State([], None, None, firstId)
  }

  /** The state after the loop has consumed `lines`. */
  function Run(st: State, lines: seq<string>): State
    decreases |lines|
  {
    if lines == [] then st else Step(Run(st, lines[..|lines| - 1]), lines[|lines| - 1])
  }

  /** Lines 131-137: the items whose stripped name is non-empty, in their
      order. */
  function Named(items: seq<Dish>): (r: seq<Dish>)
    ensures |r| <= |items|
    ensures forall k :: 0 <= k < |r| ==> HasName(r[k]) && r[k] in items
    ensures forall k :: 0 <= k < |items| && HasName(items[k]) ==> items[k] in r
    decreases |items|
  {
    if items == [] then []
    else
      var init := items[..|items| - 1];
      var rest := Named(init);
      var last := items[|items| - 1];
      assert items == init + [last];
      if HasName(last) then rest + [last] else rest
  }

  /** `(it.get("dish_name") or "").strip()` is non-empty. */
  predicate HasName(d: Dish) {
    Strip(d.name) != []
  }

  /** The filter keeps the items in their order. */
  lemma {:induction false} NamedKeepsOrder(items: seq<Dish>)
    requires IdsIncreasing(items)
    ensures IdsIncreasing(Named(items))
    decreases |items|
  {
    if items != [] {
      var init := items[..|items| - 1];
      var last := items[|items| - 1];
      assert IdsIncreasing(init);
      NamedKeepsOrder(init);
      var rest := Named(init);
      assert Named(items) == if HasName(last) then rest + [last] else rest;
      forall k | 0 <= k < |rest| ensures rest[k].id < last.id {
        assert rest[k] in init;
      }
    }
  }

  /** The ids grow strictly along the sequence. */
  predicate IdsIncreasing(items: seq<Dish>) {
    forall i, j :: 0 <= i < j < |items| ==> items[i].id < items[j].id
  }

  /** The heuristic result for `lines`, with the next fresh id. */
  function Heuristic(lines: seq<string>, firstId: nat): (seq<Dish>, nat) {
    var st := Flush(Run(Start(firstId), lines));
    (Named(st.items), st.nextId)
  }

  // ----- Descriptions -----

  lemma BlankConcat(a: string, b: string)
    ensures IsBlank(a + b) <==> IsBlank(a) && IsBlank(b)
  {
    assert forall i :: 0 <= i < |a| ==> a[i] == (a + b)[i];
    assert forall i :: 0 <= i < |b| ==> b[i] == (a + b)[|a| + i];
    if IsBlank(a) && IsBlank(b) {
      forall i | 0 <= i < |a + b| ensures IsSpace((a + b)[i]) {
        if i >= |a| { assert (a + b)[i] == b[i - |a|]; }
      }
    }
  }

  /** Joining with a blank separator gives a blank string exactly when every
      part is blank. */
  lemma {:induction false} JoinBlank(sep: string, ps: seq<string>)
    requires IsBlank(sep)
    ensures IsBlank(Join(sep, ps)) <==> forall i :: 0 <= i < |ps| ==> IsBlank(ps[i])
    decreases |ps|
  {
    if |ps| > 1 {
      JoinBlank(sep, ps[1..]);
      BlankConcat(ps[0], sep);
      BlankConcat(ps[0] + sep, Join(sep, ps[1..]));
      assert forall i :: 1 <= i < |ps| ==> ps[i] == ps[1..][i - 1];
    }
  }

  /** A string and its strip are blank together. */
  lemma StrippedBlank(p: string)
    ensures IsBlank(Strip(p)) <==> IsBlank(p)
  {
    StripEmptyIffBlank(p);
    StripEmptyIffBlank(Strip(p));
    StripByIdempotent(p, Spaces);
  }

  /** A dish gets a description exactly when one of its continuation parts
      is not blank, and the description is non-empty and stripped. */
  lemma DescribeIff(parts: seq<string>)
    ensures Describe(parts).Some? <==> exists i :: 0 <= i < |parts| && !IsBlank(parts[i])
    ensures DescOk(Describe(parts))
  {
    var ss := StripAll(parts);
    var j := Join(" ", ss);
    JoinBlank(" ", ss);
    StripEmptyIffBlank(j);
    StripByIdempotent(j, Spaces);
    forall i | 0 <= i < |parts| ensures IsBlank(ss[i]) <==> IsBlank(parts[i]) {
      StrippedBlank(parts[i]);
    }
  }

  // ----- The invariant of the walk -----

  predicate PriceOk(p: Option<DishPrice>) {
    p.Some? && p.value.Literal? ==> '$' in p.value.token
  }

  predicate DescOk(o: Option<string>) {
    o.Some? ==> o.value != [] && Strip(o.value) == o.value
  }

  /** What every emitted dish satisfies: an upper-case category, a name that
      is not a heading, a literal price only for a `$` token, and a
      description only when it is non-empty and stripped. */
  predicate DishOk(d: Dish) {
    NoLower(d.category) && !IsSectionHeading(d.name) && PriceOk(d.price) && DescOk(d.description)
  }

  predicate DraftOk(d: Draft) {
    NoLower(d.category) && !IsSectionHeading(d.name) && PriceOk(d.price)
  }

  /** The invariant of the walk: every id is fresh (at least `firstId`,
      below `nextId`), the ids of the items grow in emission order and the
      open dish's id exceeds them all; every dish has the shape `DishOk`
      states; and while no category has been set every dish is
      "UNCATEGORIZED". */
  predicate Valid(st: State, firstId: nat) {
    IdsValid(st, firstId) && ShapesValid(st) && CategoryValid(st)
  }

  predicate IdsValid(st: State, firstId: nat) {
    firstId <= st.nextId
    && (forall i :: 0 <= i < |st.items| ==> firstId <= st.items[i].id < st.nextId)
    && (forall i, j :: 0 <= i < j < |st.items| ==> st.items[i].id < st.items[j].id)
    && (st.dish.Some? ==>
          firstId <= st.dish.value.id < st.nextId
          && forall i :: 0 <= i < |st.items| ==> st.items[i].id < st.dish.value.id)
  }

  predicate ShapesValid(st: State) {
    (forall i :: 0 <= i < |st.items| ==> DishOk(st.items[i]))
    && (st.dish.Some? ==> DraftOk(st.dish.value))
  }

  predicate CategoryValid(st: State) {
    st.category.None? ==>
      (forall i :: 0 <= i < |st.items| ==> st.items[i].category == Uncategorized)
      && (st.dish.Some? ==> st.dish.value.category == Uncategorized)
  }

  /** `b` keeps the items of `a` and adds at most one. */
  predicate Extends(a: State, b: State) {
    |a.items| <= |b.items| <= |a.items| + 1 && b.items[..|a.items|] == a.items && a.nextId <= b.nextId
  }

  /** No lower-case letter: what `str.upper()` leaves. */
  predicate NoLower(s: string) {
    forall i :: 0 <= i < |s| ==> !IsLower(s[i])
  }

  lemma UpperHasNoLower(s: string)
    ensures NoLower(Upper(s))
  {
  }

  lemma UpperUncategorized()
    ensures Upper(Uncategorized) == Uncategorized
  {
    assert forall i :: 0 <= i < |Uncategorized| ==> UpperChar(Uncategorized[i]) == Uncategorized[i];
  }

  lemma FinalizeOk(d: Draft)
    requires DraftOk(d)
    ensures DishOk(Finalize(d))
  {
    DescribeIff(d.parts);
  }

  /** Flushing keeps the invariant, closes the open dish and appends it. */
  lemma FlushValid(st: State, firstId: nat)
    requires Valid(st, firstId)
    ensures Valid(Flush(st), firstId) && Extends(st, Flush(st))
    ensures Flush(st).dish.None? && Flush(st).category == st.category && Flush(st).nextId == st.nextId
  {
    if st.dish.Some? {
      var items := st.items + [Finalize(st.dish.value)];
      assert items[..|st.items|] == st.items;
      FlushIds(st, firstId);
      FlushShapes(st);
      FlushCategory(st);
    }
  }

  lemma FlushIds(st: State, firstId: nat)
    requires IdsValid(st, firstId) && st.dish.Some?
    ensures IdsValid(Flush(st), firstId)
  {
    var items := st.items + [Finalize(st.dish.value)];
    assert forall i :: 0 <= i < |st.items| ==> items[i] == st.items[i];
  }

  lemma FlushShapes(st: State)
    requires ShapesValid(st) && st.dish.Some?
    ensures ShapesValid(Flush(st))
  {
    FinalizeOk(st.dish.value);
    var items := st.items + [Finalize(st.dish.value)];
    assert forall i :: 0 <= i < |st.items| ==> items[i] == st.items[i];
  }

  lemma FlushCategory(st: State)
    requires CategoryValid(st) && st.dish.Some?
    ensures CategoryValid(Flush(st))
  {
    var items := st.items + [Finalize(st.dish.value)];
    assert forall i :: 0 <= i < |st.items| ==> items[i] == st.items[i];
  }

  /** Every step keeps the invariant and only ever appends to the items. */
  lemma StepValid(st: State, line: string, firstId: nat)
    requires Valid(st, firstId)
    ensures Valid(Step(st, line), firstId) && Extends(st, Step(st, line))
  {
    if IsSectionHeading(line) {
      HeadingValid(st, line, firstId);
    } else if st.dish.Some? && Continues(line) {
      ContinueValid(st, line, firstId);
    } else {
      DishLineValid(st, line, firstId);
    }
  }

  lemma HeadingValid(st: State, line: string, firstId: nat)
    requires Valid(st, firstId) && IsSectionHeading(line)
    ensures Valid(Step(st, line), firstId) && Extends(st, Step(st, line))
  {
    FlushValid(st, firstId);
    assert Step(st, line) == Flush(st).(category := Some(Strip(line)));
  }

  lemma ContinueValid(st: State, line: string, firstId: nat)
    requires Valid(st, firstId) && !IsSectionHeading(line) && st.dish.Some? && Continues(line)
    ensures Valid(Step(st, line), firstId) && Extends(st, Step(st, line))
  {
    assert st.items[..|st.items|] == st.items;
  }

  lemma DishLineValid(st: State, line: string, firstId: nat)
    requires Valid(st, firstId) && !IsSectionHeading(line) && !(st.dish.Some? && Continues(line))
    ensures Valid(Step(st, line), firstId) && Extends(st, Step(st, line))
  {
    FlushValid(st, firstId);
    OpenValid(Flush(st), line, firstId);
  }

  /** Opening a dish with the next fresh id, or naming a category, keeps
      the invariant. */
  lemma OpenValid(st: State, line: string, firstId: nat)
    requires Valid(st, firstId) && st.dish.None?
    ensures Valid(DishLine(st, line), firstId) && DishLine(st, line).items == st.items
    ensures st.nextId <= DishLine(st, line).nextId
  {
    var pm := ExtractPrice(line);
    var name := NamePart(line, pm.raw);
    if !IsSectionHeading(name) {
      var d := Draft(st.nextId, name, Upper(CategoryOr(st.category)), PriceOf(pm), []);
      UpperHasNoLower(CategoryOr(st.category));
      UpperUncategorized();
      PriceOfOk(line);
      assert DraftOk(d);
      OpenDraftValid(st, d, firstId);
    }
  }

  lemma OpenDraftValid(st: State, d: Draft, firstId: nat)
    requires Valid(st, firstId) && st.dish.None? && d.id == st.nextId && DraftOk(d)
    requires st.category.None? ==> d.category == Uncategorized
    ensures Valid(st.(dish := Some(d), nextId := st.nextId + 1), firstId)
  {
  }

  lemma PriceOfOk(line: string)
    ensures PriceOk(PriceOf(ExtractPrice(line)))
  {
  }

  /** The invariant holds after any number of lines. */
  lemma {:induction false} RunValid(lines: seq<string>, firstId: nat)
    ensures Valid(Run(Start(firstId), lines), firstId)
    decreases |lines|
  {
    if lines != [] {
      RunValid(lines[..|lines| - 1], firstId);
      StepValid(Run(Start(firstId), lines[..|lines| - 1]), lines[|lines| - 1], firstId);
    }
  }

  // ----- What one line does -----

  /** A heading line closes the open dish and sets the category to its
      stripped text; it opens no dish and uses no id. */
  lemma HeadingStep(st: State, line: string)
    requires IsSectionHeading(line)
    ensures var r := Step(st, line);
      r.dish.None? && r.category == Some(Strip(line)) && r.nextId == st.nextId
      && r.items == st.items + (if st.dish.Some? then [Finalize(st.dish.value)] else [])
  {
  }

  /** With a dish open and a line that is not a heading, the line is added to
      the dish's parts, and nothing else changes, exactly when it is a
      continuation; otherwise the open dish is emitted first. */
  lemma ContinuationIff(st: State, line: string)
    requires st.dish.Some? && !IsSectionHeading(line)
    ensures Step(st, line) == st.(dish := Some(st.dish.value.(parts := st.dish.value.parts + [line])))
            <==> Continues(line)
    ensures !Continues(line) ==> Step(st, line).items == st.items + [Finalize(st.dish.value)]
  {
    if !Continues(line) {
      OpenKeepsItems(Flush(st), line);
      assert |Step(st, line).items| == |st.items| + 1;
    }
  }

  lemma OpenKeepsItems(st: State, line: string)
    ensures DishLine(st, line).items == st.items
  {
  }

  /** A line that is neither a heading nor a continuation, but whose name
      part reads as a heading, sets the category to that name and opens no
      dish. */
  lemma NameHeadingStep(st: State, line: string)
    requires !IsSectionHeading(line) && !(st.dish.Some? && Continues(line))
    requires IsSectionHeading(NamePart(line, ExtractPrice(line).raw))
    ensures var r := Step(st, line);
      r.dish.None? && r.category == Some(NamePart(line, ExtractPrice(line).raw)) && r.nextId == st.nextId
      && r.items == Flush(st).items
  {
  }

  /** Otherwise the line opens a dish with the next fresh id, its name part,
      the upper-cased current category (or "UNCATEGORIZED") and its price
      token, and without parts. */
  lemma DishStep(st: State, line: string)
    requires !IsSectionHeading(line) && !(st.dish.Some? && Continues(line))
    requires !IsSectionHeading(NamePart(line, ExtractPrice(line).raw))
    ensures var r := Step(st, line); var pm := ExtractPrice(line);
      r.dish == Some(Draft(st.nextId, NamePart(line, pm.raw), Upper(CategoryOr(st.category)), PriceOf(pm), []))
      && r.nextId == st.nextId + 1 && r.category == st.category && r.items == Flush(st).items
  {
  }

  // ----- Over the whole text -----

  /** A line that can set the category: a heading, or a line whose name part
      is one. */
  predicate NamesCategory(line: string) {
    IsSectionHeading(line) || IsSectionHeading(NamePart(line, ExtractPrice(line).raw))
  }

  /** With no line naming a category, no category is ever set. */
  lemma {:induction false} NoHeadingNoCategory(lines: seq<string>, firstId: nat)
    requires forall k :: 0 <= k < |lines| ==> !NamesCategory(lines[k])
    ensures Run(Start(firstId), lines).category.None?
    decreases |lines|
  {
    if lines != [] {
      var init := lines[..|lines| - 1];
      assert forall k :: 0 <= k < |init| ==> init[k] == lines[k];
      NoHeadingNoCategory(init, firstId);
    }
  }

  /** The heuristic result: every dish has a non-blank name that is not a
      heading, an upper-case category, a literal price only for a `$` token,
      a description only when it is non-empty and stripped; the ids are
      fresh and grow in document order; and with no line naming a category
      every dish is "UNCATEGORIZED". */
  lemma HeuristicShape(lines: seq<string>, firstId: nat)
    ensures var (items, next) := Heuristic(lines, firstId);
      firstId <= next
      && (forall k :: 0 <= k < |items| ==> HasName(items[k]) && DishOk(items[k]) && firstId <= items[k].id < next)
      && IdsIncreasing(items)
      && ((forall k :: 0 <= k < |lines| ==> !NamesCategory(lines[k])) ==>
            forall k :: 0 <= k < |items| ==> items[k].category == Uncategorized)
  {
    var st := Run(Start(firstId), lines);
    RunValid(lines, firstId);
    FlushValid(st, firstId);
    var fl := Flush(st);
    NamedKeepsOrder(fl.items);
    var items := Named(fl.items);
    forall k | 0 <= k < |items|
      ensures DishOk(items[k]) && firstId <= items[k].id < fl.nextId
    {
      var j :| 0 <= j < |fl.items| && fl.items[j] == items[k];
    }
    if forall k :: 0 <= k < |lines| ==> !NamesCategory(lines[k]) {
      NoHeadingNoCategory(lines, firstId);
      forall k | 0 <= k < |items| ensures items[k].category == Uncategorized {
        var j :| 0 <= j < |fl.items| && fl.items[j] == items[k];
      }
    }
  }

  // ----- The loop of the source -----

  /** `flush_current()`: appends the open dish, if any, with its description
      built from its parts. */
  method FlushCurrent(items: seq<Dish>, dish: Option<Draft>) returns (result: seq<Dish>)
    ensures result == Flush(State(items, None, dish, 0)).items
  {
    result := items;
    if dish.Some? {
      var d := dish.value;
      var desc := Strip(Join(" ", StripAll(d.parts)));
      result := result + [Dish(d.id, d.name, d.category, d.price, if desc != [] then Some(desc) else None)];
    }
  }

  /** Lines 63-129: the walk over the lines, then the final flush. */
  method SegmentLines(lines: seq<string>, firstId: nat) returns (items: seq<Dish>, nextId: nat)
    ensures State(items, Run(Start(firstId), lines).category, None, nextId) == Flush(Run(Start(firstId), lines))
  {
    items := [];
    var category: Option<string> := None;
    var dish: Option<Draft> := None;
    nextId := firstId;
    var i := 0;
    while i < |lines|
      invariant i <= |lines|
      invariant State(items, category, dish, nextId) == Run(Start(firstId), lines[..i])
    {
      var line := lines[i];
      ghost var st := State(items, category, dish, nextId);
      RunSnoc(Start(firstId), lines, i);
      i := i + 1;
      if IsSectionHeading(line) {
        HeadingStep(st, line);
        items := FlushCurrent(items, dish);
        dish := None;
        category := Some(Strip(line));
        continue;
      }
      if dish.Some? {
        if !IsSectionHeading(line) {
          ContinuationIff(st, line);
          var maybeNum := ExtractPrice(line).numeric;
          if ((|line| > 0 && (IsLower(line[0]) || IsSpace(line[0]))) || maybeNum.None?) && !IsCapsLine(Strip(line)) {
            dish := Some(dish.value.(parts := dish.value.parts + [line]));
            continue;
          }
        }
        items := FlushCurrent(items, dish);
        dish := None;
      }
      var pm := ExtractPrice(line);
      var name := NamePart(line, pm.raw);
      if IsSectionHeading(name) {
        NameHeadingStep(st, line);
        category := Some(name);
        continue;
      }
      DishStep(st, line);
      dish := Some(Draft(nextId, name, Upper(CategoryOr(category)), PriceOf(pm), []));
      nextId := nextId + 1;
    }
    assert lines[..|lines|] == lines;
    items := FlushCurrent(items, dish);
  }

  lemma RunSnoc(st: State, lines: seq<string>, i: nat)
    requires i < |lines|
    ensures Run(st, lines[..i + 1]) == Step(Run(st, lines[..i]), lines[i])
  {
    assert lines[..i + 1][..i] == lines[..i];
  }

  /** Lines 131-137: the junk filter. */
  method DropNameless(items: seq<Dish>) returns (kept: seq<Dish>)
    ensures kept == Named(items)
  {
    kept := [];
    var i := 0;
    while i < |items|
      invariant i <= |items|
      invariant kept == Named(items[..i])
    {
      assert items[..i + 1][..i] == items[..i];
      var name := Strip(items[i].name);
      if name != [] {
        kept := kept + [items[i]];
      }
      i := i + 1;
    }
    assert items[..|items|] == items;
  }
}
