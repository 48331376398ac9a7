/** Worked examples of the heuristic segmentation on concrete menus. */
module MenuScenarios {
  import opened Strings
  import opened Heading
  import opened Price
  import opened Segmentation

  // ----- A starters section with a two-word Title-Case dish name -----

  const L1 := "STARTERS"
  const L2 := "Tomato Soup $8"
  const L3 := "   served hot with herbs"
  const L4 := "Caesar Salad 10.50"

  /** The state after each of the four lines. */
  const St1 := State([], Some("STARTERS"), None, 0)
  const St2 := State([], Some("Tomato Soup"), None, 0)
  const St3 := State([], Some("Tomato Soup"), Some(Draft(0, Served, "TOMATO SOUP", None, [])), 1)
  const St4 := State([Soup], Some("Caesar Salad"), None, 1)

  lemma Line1()
    ensures Step(Start(0), L1) == St1
  {
    StripUntouched(L1);
    CapsWithoutDigitsIsHeading(L1);
    HeadingStep(Start(0), L1);
  }

  /** The token of a line whose leftmost match is known. */
  lemma PriceFromMatch(line: string, m: Span, tok: string)
    requires Search(line, 0) == Some(m)
    requires RemoveChar(line[m.start..m.end], ' ') == tok
    ensures ExtractPrice(line).raw == tok
    ensures tok != [] && '$' !in tok ==> ExtractPrice(line).numeric.Some?
  {
    TokenOfMatch(line, m);
  }

  lemma Search2()
    ensures Search(L2, 0) == Some(Span(12, 14))
  {
    forall q | 0 <= q < 12 ensures MatchAt(L2, q).None? {
      assert !IsDigit(L2[q]) && L2[q] != '$';
    }
    assert SpaceRun(L2, 13) == 0;
    assert DigitRun(L2, 14) == 0;
    assert DigitRun(L2, 13) == 1;
    assert DollarMatchAt(L2, 12) == Some(14);
  }

  lemma Token2()
    ensures RemoveChar(L2[12..14], ' ') == "$8"
  {
    assert L2[12..14] == "$8";
    assert RemoveChar("$8"[1..], ' ') == "8";
  }

  lemma Price2()
    ensures ExtractPrice(L2) == PriceMatch("$8", None)
  {
    Search2();
    Token2();
    PriceFromMatch(L2, Span(12, 14), "$8");
    assert '$' in "$8";
  }

  lemma Name2()
    ensures NamePart(L2, "$8") == "Tomato Soup"
  {
    assert OccursAt(L2, "$8", 12) by { assert L2[12..14] == "$8"; }
    forall j | 0 <= j < 12 ensures !OccursAt(L2, "$8", j) {
      assert L2[j] == "Tomato Soup $8"[j];
      assert L2[j..j + 2][0] == L2[j];
    }
    FindFirst(L2, "$8", 12);
    var head := "Tomato Soup ";
    assert SliceTo(L2, 12) == L2[..12] == head;
    assert TrimStart(head, NameMarks, 0) == 0;
    assert TrimEnd(head, NameMarks, 0, 11) == 11;
    assert TrimEnd(head, NameMarks, 0, 12) == 11;
    assert head[0..11] == "Tomato Soup";
  }

  lemma TomatoSoupIsHeading()
    ensures IsSectionHeading("Tomato Soup")
  {
    LettersTitleWord("Tomato");
    LettersTitleWord("Soup");
    TitlePairIsHeading("Tomato", "Soup");
    assert "Tomato" + " " + "Soup" == "Tomato Soup";
  }

  lemma Line2()
    ensures Step(St1, L2) == St2
  {
    assert CurrencyDigitAt(L2, 12) by { assert SpaceRun(L2, 13) == 0; }
    CurrencyBeforeDigitIsNotHeading(L2, 12);
    Price2();
    Name2();
    TomatoSoupIsHeading();
    NameHeadingStep(St1, L2);
  }

  const Served := "served hot with herbs"

  lemma Strip3()
    ensures Strip(L3) == Served && Strip(Served) == Served
  {
    assert TrimStart(L3, Spaces, 3) == 3;
    assert TrimStart(L3, Spaces, 0) == 3;
    assert TrimEnd(L3, Spaces, 3, |L3|) == |L3|;
    assert L3[3..|L3|] == Served;
    StripByIdempotent(L3, Spaces);
  }

  lemma UpperTomatoSoup()
    ensures Upper("Tomato Soup") == "TOMATO SOUP"
  {
    var s := "Tomato Soup";
    assert forall i :: 0 <= i < |s| ==> UpperChar(s[i]) == "TOMATO SOUP"[i];
  }

  lemma Facts3()
    ensures !IsSectionHeading(L3) && ExtractPrice(L3) == PriceMatch("", None)
    ensures NamePart(L3, "") == Served && !IsSectionHeading(Served)
  {
    Strip3();
    LowerStartIsNotHeading(L3);
    LowerStartIsNotHeading(Served);
    NoDigit3();
  }

  lemma NoDigit3()
    ensures !HasDigit(L3)
  {
    forall i | 0 <= i < |L3| ensures !IsDigit(L3[i]) {
      assert L3[i] == "   served hot with herbs"[i];
    }
  }

  lemma Line3()
    ensures Step(St2, L3) == St3
  {
    Facts3();
    UpperTomatoSoup();
    DishStep(St2, L3);
  }

  lemma Search4()
    ensures Search(L4, 0) == Some(Span(13, 18))
  {
    forall q | 0 <= q < 13 ensures MatchAt(L4, q).None? {
      assert !IsDigit(L4[q]) && L4[q] != '$';
    }
    assert DigitRun(L4, 18) == 0;
    assert DigitRun(L4, 17) == 1;
    assert DigitRun(L4, 16) == 2;
    assert DigitRun(L4, 15) == 0;
    assert DigitRun(L4, 14) == 1;
    assert DigitRun(L4, 13) == 2;
    assert DollarMatchAt(L4, 13).None?;
    assert NumberMatchAt(L4, 13) == Some(18);
  }

  lemma Token4()
    ensures RemoveChar(L4[13..18], ' ') == "10.50" && '$' !in "10.50"
  {
    assert L4[13..18] == "10.50";
    assert ' ' !in "10.50";
    RemoveCharAbsent("10.50", ' ');
  }

  lemma Price4()
    ensures ExtractPrice(L4).raw == "10.50" && ExtractPrice(L4).numeric.Some?
  {
    Search4();
    Token4();
    PriceFromMatch(L4, Span(13, 18), "10.50");
  }

  lemma Name4()
    ensures NamePart(L4, "10.50") == "Caesar Salad"
  {
    assert OccursAt(L4, "10.50", 13) by { assert L4[13..18] == "10.50"; }
    forall j | 0 <= j < 13 ensures !OccursAt(L4, "10.50", j) {
      assert L4[j] == "Caesar Salad 10.50"[j];
      assert L4[j..j + 5][0] == L4[j];
    }
    FindFirst(L4, "10.50", 13);
    var head := "Caesar Salad ";
    assert SliceTo(L4, 13) == L4[..13] == head;
    assert TrimStart(head, NameMarks, 0) == 0;
    assert TrimEnd(head, NameMarks, 0, 12) == 12;
    assert TrimEnd(head, NameMarks, 0, 13) == 12;
    assert head[0..12] == "Caesar Salad";
  }

  lemma CaesarSaladIsHeading()
    ensures IsSectionHeading("Caesar Salad")
  {
    LettersTitleWord("Caesar");
    LettersTitleWord("Salad");
    TitlePairIsHeading("Caesar", "Salad");
    assert "Caesar" + " " + "Salad" == "Caesar Salad";
  }

  const Soup := Dish(0, Served, "TOMATO SOUP", None, None)

  lemma Facts4()
    ensures !IsSectionHeading(L4) && !Continues(L4)
    ensures ExtractPrice(L4).raw == "10.50" && NamePart(L4, "10.50") == "Caesar Salad"
    ensures IsSectionHeading("Caesar Salad")
  {
    StripUntouched(L4);
    PriceSuffixIsNotHeading(L4);
    Price4();
    Name4();
    CaesarSaladIsHeading();
  }

  lemma FlushSoup()
    ensures Flush(St3).items == [Soup]
  {
    assert Strip(Join(" ", StripAll([]))) == [];
    assert Finalize(St3.dish.value) == Soup;
  }

  /** A line whose name part, in front of the token `raw`, is the heading
      `name` makes `name` the category. */
  lemma NameStep(st: State, line: string, raw: string, name: string)
    requires !IsSectionHeading(line) && !(st.dish.Some? && Continues(line))
    requires ExtractPrice(line).raw == raw && NamePart(line, raw) == name && IsSectionHeading(name)
    ensures Step(st, line) == State(Flush(st).items, Some(name), None, st.nextId)
  {
    NameHeadingStep(st, line);
  }

  lemma Line4()
    ensures Step(St3, L4) == St4
  {
    Facts4();
    FlushSoup();
    NameStep(St3, L4, "10.50", "Caesar Salad");
  }

  /** Four steps make a run. */
  lemma RunOfFour(st0: State, a: string, b: string, c: string, d: string,
                  st1: State, st2: State, st3: State, st4: State)
    requires Step(st0, a) == st1 && Step(st1, b) == st2 && Step(st2, c) == st3 && Step(st3, d) == st4
    ensures Run(st0, [a, b, c, d]) == st4
  {
    assert [a][..0] == [];
    assert Run(st0, [a]) == st1;
    assert [a, b][..1] == [a];
    assert Run(st0, [a, b]) == st2;
    assert [a, b, c][..2] == [a, b];
    assert Run(st0, [a, b, c]) == st3;
    assert [a, b, c, d][..3] == [a, b, c];
  }

  /** The heuristic result of a text whose walk ends in `st`. */
  lemma HeuristicOf(lines: seq<string>, firstId: nat, st: State)
    requires Run(Start(firstId), lines) == st
    ensures Heuristic(lines, firstId) == (Named(Flush(st).items), Flush(st).nextId)
  {
  }

  lemma SoupKept()
    ensures Flush(St4) == St4 && Named(St4.items) == [Soup]
  {
    Strip3();
    assert HasName(Soup);
    assert [Soup][..0] == [];
  }

  /** The first line is a heading, but "Tomato Soup" (the name in front of
      "$8") is two title words and so is taken as a category too; the
      indented line then opens a dish of its own, which "Caesar Salad 10.50"
      closes before its own name is again taken as a category.  One dish
      results, named by the description line and filed under the dish name
      upper-cased. */
  lemma TitleCaseNamesBecomeCategories()
    ensures Heuristic([L1, L2, L3, L4], 0) == ([Soup], 1)
  {
    Line1();
    Line2();
    Line3();
    Line4();
    RunOfFour(Start(0), L1, L2, L3, L4, St1, St2, St3, St4);
    HeuristicOf([L1, L2, L3, L4], 0, St4);
    SoupKept();
  }

  // ----- A line whose name is only whitespace -----

  lemma JunkPrice()
    ensures ExtractPrice("\t$5") == PriceMatch("$5", None)
  {
    var s := "\t$5";
    assert MatchAt(s, 0).None?;
    assert SpaceRun(s, 2) == 0;
    assert DigitRun(s, 3) == 0;
    assert DigitRun(s, 2) == 1;
    assert DollarMatchAt(s, 1) == Some(3);
    assert Search(s, 1) == Some(Span(1, 3));
    assert Search(s, 0) == Some(Span(1, 3));
    assert s[1..3] == "$5";
    assert RemoveChar("$5"[1..], ' ') == "5";
    assert RemoveChar("$5", ' ') == "$5";
  }

  lemma JunkName()
    ensures NamePart("\t$5", "$5") == "\t"
  {
    var s := "\t$5";
    assert s[0..2][0] == '\t';
    assert s[1..3] == "$5";
    assert Find(s, "$5") == 1;
    assert SliceTo(s, 1) == "\t";
    assert TrimStart("\t", NameMarks, 0) == 0;
    assert TrimEnd("\t", NameMarks, 0, 1) == 1;
    assert StripBy("\t", NameMarks) == "\t";
  }

  lemma JunkNotHeading()
    ensures !IsSectionHeading("\t$5") && !IsSectionHeading("\t") && Strip("\t") == ""
  {
    assert TrimStart("\t$5", Spaces, 1) == 1;
    assert TrimStart("\t$5", Spaces, 0) == 1;
    assert TrimEnd("\t$5", Spaces, 1, 3) == 3;
    assert Strip("\t$5") == "$5";
    assert TrimStart("\t", Spaces, 1) == 1;
    assert TrimStart("\t", Spaces, 0) == 1;
    assert Strip("\t") == "";
  }

  /** "\t$5" opens a dish named "\t" (what precedes the token, with no
      name mark to strip); the junk filter is what removes it. */
  lemma JunkDropped()
    ensures Flush(Run(Start(0), ["\t$5"])).items == [Dish(0, "\t", Uncategorized, Some(Literal("$5")), None)]
    ensures Heuristic(["\t$5"], 0) == ([], 1)
  {
    var line := "\t$5";
    JunkPrice();
    JunkName();
    JunkNotHeading();
    UpperUncategorized();
    assert ["\t$5"][..0] == [];
    assert Run(Start(0), ["\t$5"]) == Step(Start(0), line);
    DishStep(Start(0), line);
    assert Strip(Join(" ", StripAll([]))) == "";
    var d := Dish(0, "\t", Uncategorized, Some(Literal("$5")), None);
    assert Flush(Run(Start(0), ["\t$5"])).items == [d];
    assert !HasName(d);
    assert Named([d]) == [];
  }

  // ----- A price token written with a space after the sign -----

  const Spaced := "Soup $ 12"

  lemma SpacedSearch()
    ensures Search(Spaced, 0) == Some(Span(5, 9))
  {
    var s := Spaced;
    forall q | 0 <= q < 5 ensures MatchAt(s, q).None? {
      assert !IsDigit(s[q]) && s[q] != '$';
    }
    assert SpaceRun(s, 7) == 0;
    assert SpaceRun(s, 6) == 1;
    assert DigitRun(s, 9) == 0; assert DigitRun(s, 8) == 1; assert DigitRun(s, 7) == 2;
    assert DollarMatchAt(s, 5) == Some(9);
    assert Search(s, 5) == Some(Span(5, 9));
  }

  lemma SpacedToken()
    ensures RemoveChar(Spaced[5..9], ' ') == "$12"
  {
    SpacedSlice();
    SpacedTokenText();
  }

  lemma SpacedSlice()
    ensures Spaced[5..9] == "$ 12"
  {
  }

  lemma SpacedTokenText()
    ensures RemoveChar("$ 12", ' ') == "$12"
  {
    RemoveCharAbsent("12", ' ');
    assert " 12"[1..] == "12";
    assert "$ 12"[1..] == " 12";
  }

  lemma SpacedPrice()
    ensures ExtractPrice(Spaced) == PriceMatch("$12", None)
  {
    SpacedSearch();
    SpacedToken();
    PriceFromMatch(Spaced, Span(5, 9), "$12");
    assert '$' in "$12";
  }

  /** The token "$12" does not occur in the line, so `find` gives -1 and
      the name is the line without its last character. */
  lemma SpacedName()
    ensures NamePart(Spaced, "$12") == "Soup $ 1"
  {
    var s := Spaced;
    forall j | 0 <= j ensures !OccursAt(s, "$12", j) {
      if j + 3 <= |s| {
        assert s[j..j + 3][0] == s[j] && s[j..j + 3][1] == s[j + 1];
      }
    }
    assert Find(s, "$12") == -1;
    assert SliceTo(s, -1) == "Soup $ 1";
    assert TrimStart("Soup $ 1", NameMarks, 0) == 0;
    assert TrimEnd("Soup $ 1", NameMarks, 0, 8) == 8;
    assert "Soup $ 1"[0..8] == "Soup $ 1";
  }

  lemma SpacedNotHeading()
    ensures !IsSectionHeading(Spaced) && !IsSectionHeading("Soup $ 1")
  {
    StripUntouched(Spaced);
    PriceSuffixIsNotHeading(Spaced);
    StripUntouched("Soup $ 1");
    PriceSuffixIsNotHeading("Soup $ 1");
  }

  lemma SpacedStep()
    ensures Run(Start(0), [Spaced]) == State([], None, Some(SpacedDraft), 1)
  {
    SpacedPrice();
    SpacedName();
    SpacedNotHeading();
    UpperUncategorized();
    assert [Spaced][..0] == [];
    assert Run(Start(0), [Spaced]) == Step(Start(0), Spaced);
    DishStep(Start(0), Spaced);
  }

  /** A one-line text that leaves a dish open ends with that dish. */
  lemma OneLineHeuristic(line: string, firstId: nat, d: Draft)
    requires Run(Start(firstId), [line]) == State([], None, Some(d), firstId + 1)
    ensures Heuristic([line], firstId) == (Named([Finalize(d)]), firstId + 1)
  {
  }

  const SpacedDraft := Draft(0, "Soup $ 1", Uncategorized, Some(Literal("$12")), [])
  const SpacedDish := Dish(0, "Soup $ 1", Uncategorized, Some(Literal("$12")), None)

  lemma SpacedKept()
    ensures Named([Finalize(SpacedDraft)]) == [SpacedDish]
  {
    assert Describe([]) == None by {
      assert StripAll([]) == [];
      assert Join(" ", []) == "";
      assert Strip("") == "";
    }
    var d := Finalize(SpacedDraft);
    assert d == SpacedDish;
    StripUntouched("Soup $ 1");
    assert HasName(d);
    assert [d][..0] == [];
  }

  /** "Soup $ 12" gives one dish named "Soup $ 1", priced "$12". */
  lemma SpacedSignTrimsName()
    ensures Heuristic([Spaced], 0) == ([SpacedDish], 1)
  {
    SpacedStep();
    SpacedKept();
    OneLineDish(Spaced, 0, SpacedDraft, SpacedDish);
  }

  /** A one-line text that leaves open a draft finalised and kept as
      `dish` gives exactly that dish. */
  lemma OneLineDish(line: string, firstId: nat, d: Draft, dish: Dish)
    requires Run(Start(firstId), [line]) == State([], None, Some(d), firstId + 1)
    requires Named([Finalize(d)]) == [dish]
    ensures Heuristic([line], firstId) == ([dish], firstId + 1)
  {
    OneLineHeuristic(line, firstId, d);
  }
}
