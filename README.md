# Emenu menu parser and text utilities, modelled in Dafny

The Emenu service turns the OCR text of a scanned menu's first page into
dish records. Each record has an id, a name, an upper-cased category, and
optionally a price and a description.

`ParseMenuUseCase.execute` works in four steps:

- It picks one of two OCR texts.
- It cuts the text into right-stripped, non-blank lines.
- It walks the lines once. The walk keeps a current category and at most
  one dish in progress.
  - Heading lines set the category.
  - Continuation lines are added to the open dish's description.
  - Any other line opens a dish. The name comes from what precedes the
    price token, and the price is a number or a literal `$` token.
- A language model may then replace that list. It does so only when its
  JSON reply normalises to at least one item.

A second file of the repository holds pure text helpers:

- order-preserving de-duplication of lines;
- rewriting `дата:` lines into ISO dates;
- cleaning of a `номер:` document-number line.

The model is split into modules:

| file | module | models |
|---|---|---|
| `strings.dfy` | `Strings` | the Python `str` operations used (`strip`, `split`, `splitlines`, `find`, `lower`, `upper`, `join`, `replace`, `float` on decimals) on a declared alphabet |
| `heading.dfy` | `Heading` | `_is_section_heading` |
| `price.dfy` | `Price` | `_extract_price`, with the regular expression's backtracking written out |
| `segmentation.dfy` | `Segmentation` | line preparation, the segmentation walk, `flush_current` and the junk filter. `Step` is a function on an explicit state; `SegmentLines` is the source's loop, proved to compute the fold of `Step` |
| `scenarios.dfy` | `MenuScenarios` | worked examples of the walk on concrete menus |
| `refinement.dfy` | `Refinement` | normalisation of the model's reply and the choice between the two lists |
| `parse_menu.dfy` | `ParseMenu` | `execute` end to end |
| `text_utils.dfy` | `TextUtils` | `unique_lines`, `normalize_dates` (with `fix_month_text` and `try_parse_date`) and `clean_doc_number` |

## Parameters and oracles

- The two OCR texts are parameters.
- The model's reply is a parameter: `Failed`, or `Parsed` with a JSON value. `Failed` covers both a raised network call and a raised `json.loads`.
- Python's `str()` of a JSON number, list or dict is a parameter, `render`. `str()` of a string, `None`, `True` and `False` is modelled.
- `datetime.strptime` followed by `strftime("%Y-%m-%d")` is an oracle parameter, `strptime`. It takes the date text and a format, and returns the ISO text or nothing.
- `uuid.uuid4().hex` is modelled as a counter. Every dish takes the next id, and the model's items continue from where the heuristic stopped. The proved property is that ids are fresh and grow in output order.

## Behaviour of the code worth knowing

- **Currency signs in prices.** The price pattern of `_extract_price` accepts only `$` before a number. Its later test for `€` and `£` in the token therefore never succeeds.
- **Price-token idempotence** does not hold for every token.
  - `"12.345"` gives the token `"12."`, and `"12."` gives `"12"`. This is shown by `Price.TruncatedFraction` and `Price.TrailingSeparatorDropped`.
  - It does hold for numeral tokens, without a `$`, that end in a digit (`Price.ReExtractNumeral`). The `$` tokens are not covered by that lemma.
- **A Title-Case name part becomes a category.** The menu `STARTERS`, `Tomato Soup $8`, `   served hot with herbs`, `Caesar Salad 10.50` gives one dish, not two.
  - The name parts "Tomato Soup" and "Caesar Salad" are two Title-Case words, so each becomes a category.
  - The only dish is "served hot with herbs", under category "TOMATO SOUP", without a price.
  - This is proved by `MenuScenarios.TitleCaseNamesBecomeCategories`.
- **A blank document-number line gives an empty result.** `clean_doc_number` strips a line that does not start with `номер:`, so a blank line comes back as `""` and not as `<не найдено>` (`TextUtils.BlankLineGivesEmpty`). Only number lines are sure to give a non-empty result (`TextUtils.CleanWithSpec`).
- **The junk filter is reachable.** `"\t$5"` opens a dish named `"\t"`, and the filter drops it (`MenuScenarios.JunkDropped`).
- **Spaced price tokens.** The price token has its spaces removed before it is searched for in the line.
  - For `"Soup $ 12"` the token is `"$12"`, which does not occur in the line.
  - `find` then gives -1, and the name is the line minus its last character: `"Soup $ 1"`.
  - This is proved by `MenuScenarios.SpacedSignTrimsName`.

## Model

| member | source | states |
|---|---|---|
| `Heading.IsSectionHeading` | src/application/use_cases/parse_menu.py:15-31 | A heading has a stripped length of at least 3. If it has a lower-case letter it is Title Case. It has no currency sign before a digit and no numeric suffix. |
| `Heading.CapsWithoutDigitsIsHeading` | src/application/use_cases/parse_menu.py:16-31 | A stripped text of 3 or more characters with no lower-case letter and no digit is a heading, including single all-caps words. |
| `Heading.PriceSuffixIsNotHeading` | src/application/use_cases/parse_menu.py:29-30 | A text ending in a digit, or in a digit and a separator, is never a heading, whatever its casing. |
| `Heading.CurrencyBeforeDigitIsNotHeading` | src/application/use_cases/parse_menu.py:27-28 | A currency sign followed, after optional whitespace, by a digit anywhere in the line rules the line out as a heading. |
| `Heading.LowerStartIsNotHeading` | src/application/use_cases/parse_menu.py:20-26 | A text starting with a lower-case letter is never a heading. |
| `Heading.TitlePairIsHeading` | src/application/use_cases/parse_menu.py:20-26 | Two digit-free Title-Case words form a heading. |
| `Price.ExtractPrice` | src/application/use_cases/parse_menu.py:34-49 | No match of the pattern gives `("", None)`. Otherwise the token is the leftmost match (as `Price.Search` states it) with its spaces removed. The token has no space and holds a digit. A `$` token has no value. Any other token is a numeral whose value is read with either separator as the decimal point. A line without digits gives `("", None)`. |
| `Price.DigitWithoutToken` | src/application/use_cases/parse_menu.py:37-39 | `"a1"` holds a digit but gives `("", None)`: no word boundary precedes the `1`. |
| `Price.Search` | src/application/use_cases/parse_menu.py:37 | The match found is a match of the pattern, and no match starts further left. |
| `Price.ReadToken` | src/application/use_cases/parse_menu.py:40-49 | A currency token is kept with no value. Any other token has its numeral value. |
| `Price.NumeralParses` | src/application/use_cases/parse_menu.py:45-49 | `float()` accepts every numeral once commas become points, so the `except ValueError` branch is dead. |
| `Price.CommaDecimal` | src/application/use_cases/parse_menu.py:45-47 | `"12,50"` gives the token `"12,50"` with value 12.5. |
| `Price.DollarKeptLiteral` | src/application/use_cases/parse_menu.py:37-43 | `"Soup $12.00"` gives the token `"$12.00"` with no value. |
| `Price.ReExtractNumeral` | src/application/use_cases/parse_menu.py:37-47 | Re-extracting a numeral that ends in a digit gives back that numeral and its value. |
| `Price.TruncatedFraction` | src/application/use_cases/parse_menu.py:37 | `"12.345"` gives the token `"12."` with value 12: the backtracking drops the fraction. |
| `Price.TrailingSeparatorDropped` | src/application/use_cases/parse_menu.py:37 | `"12."` gives the token `"12"`, so re-extraction is not idempotent there. |
| `Segmentation.SplitLines` | src/application/use_cases/parse_menu.py:61 | No piece of `splitlines()` contains a line boundary. |
| `Segmentation.SplitLinesJoin` | src/application/use_cases/parse_menu.py:61 | Writing the pieces back, each closed by a newline, gives the text with every boundary written as a newline (`\r\n` as one) and a final newline added when the text has none. Since no piece holds a boundary, this fixes the pieces: they are the text's lines, in order. |
| `Segmentation.KeepNonBlank` | src/application/use_cases/parse_menu.py:61 | Every kept line is non-blank and right-stripped. No more lines are kept than were given. |
| `Segmentation.KeepNonBlankMembers` | src/application/use_cases/parse_menu.py:61 | Every non-blank line is kept, right-stripped, and every kept line is a non-blank line right-stripped. |
| `Segmentation.KeepNonBlankConcat` | src/application/use_cases/parse_menu.py:61 | The filter works line by line: filtering two lists one after the other is filtering their concatenation, so the kept lines keep their order. |
| `Segmentation.KeepNonBlankOne` | src/application/use_cases/parse_menu.py:61 | One line is kept, right-stripped, exactly when it is not blank. |
| `Segmentation.PrepareLines` | src/application/use_cases/parse_menu.py:59-61 | The prepared lines are non-blank, have no trailing whitespace and hold no line break. |
| `Segmentation.PrepareLinesSpec` | src/application/use_cases/parse_menu.py:59-61 | The prepared lines are exactly the text's non-blank lines, right-stripped. A text of one non-blank line gives that line alone. |
| `Segmentation.DescribeIff` | src/application/use_cases/parse_menu.py:67-78 | A flushed dish gets a description exactly when one of its continuation parts is not blank. The description is then non-empty and stripped. |
| `Segmentation.FlushValid` | src/application/use_cases/parse_menu.py:67-78 | Flushing keeps the walk's invariant, appends the open dish, closes it, and changes neither the category nor the id counter. |
| `Segmentation.HeadingStep` | src/application/use_cases/parse_menu.py:81-85 | A heading line flushes the open dish, sets the category to its stripped text, and opens no dish. |
| `Segmentation.ContinuationIff` | src/application/use_cases/parse_menu.py:87-98 | With a dish open and a non-heading line, the line is added to the dish's parts, and nothing else changes, exactly when it is a continuation. Otherwise the open dish is emitted first. |
| `Segmentation.NameHeadingStep` | src/application/use_cases/parse_menu.py:100-111 | A line whose name part is a heading sets the category to that name and opens no dish. |
| `Segmentation.DishStep` | src/application/use_cases/parse_menu.py:100-126 | Any other line opens a dish with these fields: the next fresh id, the name part, the upper-cased current category or "UNCATEGORIZED", and the price token's number or literal. |
| `Segmentation.RunValid` | src/application/use_cases/parse_menu.py:63-126 | Ids are fresh and grow, and the open dish's id is above all emitted ones. Categories have no lower-case letter. Names are not headings. Literal prices carry `$`. Without a category every dish is "UNCATEGORIZED". All of this holds after any number of lines. |
| `Segmentation.NoHeadingNoCategory` | src/application/use_cases/parse_menu.py:80-126 | If no line names a category, no category is ever set. |
| `Segmentation.Named` | src/application/use_cases/parse_menu.py:131-137 | The filter keeps exactly the items with a non-blank name. |
| `Segmentation.NamedKeepsOrder` | src/application/use_cases/parse_menu.py:131-137 | The filter keeps the items in their order. |
| `Segmentation.HeuristicShape` | src/application/use_cases/parse_menu.py:63-137 | Every heuristic dish has a non-blank name that is not a heading, an upper-case category, a literal price only for a `$` token, and a description only when it is non-empty and stripped. Ids are fresh and grow in document order. Without a category-naming line every dish is "UNCATEGORIZED". |
| `Segmentation.FlushCurrent` | src/application/use_cases/parse_menu.py:67-78 | `flush_current` appends the open dish with its description built from its parts. |
| `Segmentation.SegmentLines` | src/application/use_cases/parse_menu.py:63-129 | The loop, with its early `continue`s and the repeated heading test, computes the fold of `Step` followed by the final flush. |
| `Segmentation.DropNameless` | src/application/use_cases/parse_menu.py:131-137 | The junk-filter loop computes `Named`. |
| `MenuScenarios.TitleCaseNamesBecomeCategories` | src/application/use_cases/parse_menu.py:80-129 | The four-line starters menu gives exactly one dish: "served hot with herbs", category "TOMATO SOUP", no price, no description. |
| `MenuScenarios.JunkDropped` | src/application/use_cases/parse_menu.py:131-137 | `"\t$5"` opens a dish named `"\t"`, which the filter removes. |
| `MenuScenarios.SpacedSignTrimsName` | src/application/use_cases/parse_menu.py:102-104 | `"Soup $ 12"` gives one dish named `"Soup $ 1"`, priced `"$12"`. |
| `Refinement.ModelPrice` | src/application/use_cases/parse_menu.py:164-175 | A literal price taken from the model is always stripped. |
| `Refinement.ModelPriceKinds` | src/application/use_cases/parse_menu.py:164-175 | A string price with a currency symbol is kept stripped. Any other string is read by `float()` with commas as points, and kept as a stripped literal when that fails. A number is kept as that number, and a `bool` becomes 1 or 0. A missing, null, list or object price gives no price. |
| `Refinement.ModelPriceNumeral` | src/application/use_cases/parse_menu.py:168-173 | A numeral string price, with either separator, becomes its value. |
| `Refinement.ModelItemShape` | src/application/use_cases/parse_menu.py:154-179 | An element is skipped exactly when it is not an object or its stripped `dish_name` is empty. A kept one has a non-empty stripped name and category, a stripped literal price and a non-empty stripped description, and takes the offered id. |
| `Refinement.ModelCategory` | src/application/use_cases/parse_menu.py:161 | A missing or blank category becomes "UNCATEGORIZED". Any other category is kept stripped and not upper-cased. |
| `Refinement.ModelItemsShape` | src/application/use_cases/parse_menu.py:152-179 | Every model item has that shape. Ids run consecutively from the first fresh id. There are no more items than elements. |
| `Refinement.FailedReplyKeepsHeuristic` | src/application/use_cases/parse_menu.py:182-186 | A failed call or unparseable reply leaves the heuristic list. |
| `Refinement.NormaliseModelItems` | src/application/use_cases/parse_menu.py:151-179 | The loop over the parsed array computes `ModelItems`. |
| `Refinement.BurgerReply` | src/application/use_cases/parse_menu.py:150-181 | The reply `[{"dish_name": "Burger", "price": "9.5"}]` replaces the heuristic list by exactly one dish: "Burger", "UNCATEGORIZED", price 9.5, no description. |
| `ParseMenu.Execute` | src/application/use_cases/parse_menu.py:57-186 | `execute` composes text choice, line preparation, the walk, the filter and the model merge into `MenuItems`. |
| `ParseMenu.MenuItemsShape` | src/application/use_cases/parse_menu.py:57-186 | Whichever list wins, every dish has a non-blank name, and the ids increase from the first id. |
| `ParseMenu.BlankTextsGiveNothing` | src/application/use_cases/parse_menu.py:58-61 | Two blank OCR texts give an empty menu, whatever the model's reply. |
| `ParseMenu.FirstTextPreferred` | src/application/use_cases/parse_menu.py:59 | The second OCR text matters only when the first is blank. |
| `ParseMenu.NoModelMeansHeuristic` | src/application/use_cases/parse_menu.py:140-186 | Without a model, or with a failed reply, the result is the heuristic list. |
| `TextUtils.Distinct` | src/presentation/utils/text_utils.py:87-94 | The de-duplicated list is no longer than the input. |
| `TextUtils.DistinctSpec` | src/presentation/utils/text_utils.py:87-94 | The output has no repeated line and holds exactly the input's lines. They appear in the order of their first occurrences. |
| `TextUtils.DistinctIdempotent` | src/presentation/utils/text_utils.py:87-94 | De-duplicating twice is de-duplicating once. |
| `TextUtils.UniqueLines` | src/presentation/utils/text_utils.py:87-94 | The loop with its `seen` set computes `Distinct`. |
| `TextUtils.FirstKeySpec` | src/presentation/utils/text_utils.py:26-31 | The code is present exactly when some key occurs in the text. It is then the value of the first key, in map order, that occurs. |
| `TextUtils.FirstKeyLoop` | src/presentation/utils/text_utils.py:26-31 | The loop over the month table returns the same code that `FirstKey` describes. |
| `TextUtils.FixMonthText` | src/presentation/utils/text_utils.py:26-31 | The first-match loop over the map gives the month code of the lower-cased word. |
| `TextUtils.SentShadowed` | src/presentation/utils/text_utils.py:19-21 | Every text containing "сент" contains "сен", which comes first, so the "сент" entry never decides. |
| `TextUtils.KeepDigits` | src/presentation/utils/text_utils.py:39-41 | Removing non-digits leaves only digits. |
| `TextUtils.KeepDigitsSpec` | src/presentation/utils/text_utils.py:39-43 | Removing non-digits leaves nothing exactly when there was no digit, so the `not (day and year)` test fires exactly when a word has no digit. A digit string is left unchanged, and nothing is added. |
| `TextUtils.KeepDigitsConcat` | src/presentation/utils/text_utils.py:39-41 | Removing non-digits works piece by piece, so the result is the digits of the word in order. |
| `TextUtils.NatTextLength` | src/presentation/utils/text_utils.py:47 | `str(n)` has at most `w` digits exactly when `n` is below `10^w`. |
| `TextUtils.NatTextLead` | src/presentation/utils/text_utils.py:47 | `str(n)` of a positive number has no leading zero. |
| `TextUtils.PadSpec` | src/presentation/utils/text_utils.py:47 | A zero-padded number is a digit string that reads back as the number. It is exactly as long as the width when the number fits, and otherwise longer with no leading zero. This fixes the text. |
| `TextUtils.RussianBranch` | src/presentation/utils/text_utils.py:35-49 | After a month-pattern match, a day or year without digits gives no date. Otherwise a month word with a code gives: the year's number in exactly four digits (more, without a leading zero, when it does not fit), the code, and the day's number in exactly two digits (more when it does not fit), joined by dashes. |
| `TextUtils.MonthBranch` | src/presentation/utils/text_utils.py:35-49 | The branch with its early returns computes `RussianDate`. |
| `TextUtils.SquashKeepsText` | src/presentation/utils/text_utils.py:51 | Squashing around separators removes only whitespace. The other characters keep their order. |
| `TextUtils.SquashTight` | src/presentation/utils/text_utils.py:51 | After squashing, no whitespace stands next to `.`, `/` or `-`. |
| `TextUtils.SquashKeepsPlain` | src/presentation/utils/text_utils.py:51 | Text without a separator is copied unchanged, whitespace included, up to any point that ends the text or follows a non-space character. |
| `TextUtils.SquashNoSeparator` | src/presentation/utils/text_utils.py:51 | A text without `.`, `/` or `-` is left as it is, so the spaces of `"12 03 2020"` reach the `"%d %m %Y"` format. |
| `TextUtils.FirstFormat` | src/presentation/utils/text_utils.py:64-70 | The result is absent exactly when no format parses. Otherwise it is the first format's result. |
| `TextUtils.FormatLoop` | src/presentation/utils/text_utils.py:64-70 | The loop over the formats computes `FirstFormat`. |
| `TextUtils.FormatBranch` | src/presentation/utils/text_utils.py:51-70 | Outside the month branch, the formats see the squashed text, and the date is absent exactly when no format parses it. |
| `TextUtils.TryParseDate` | src/presentation/utils/text_utils.py:33-70 | `try_parse_date` computes `ParseDate`. |
| `TextUtils.NormalizeLineSpec` | src/presentation/utils/text_utils.py:73-83 | A line is a `дата:` line after the rewrite exactly when it was one before. Other lines are kept. A date line becomes "дата: " followed by the parsed date exactly when its text after the first colon parses to a non-empty date. Otherwise it keeps its text. |
| `TextUtils.RewriteLine` | src/presentation/utils/text_utils.py:74-83 | The branches for one line compute `NormalizeLine`. |
| `TextUtils.NormalizeDates` | src/presentation/utils/text_utils.py:72-84 | The output has the input's length, and each line is rewritten in place. |
| `TextUtils.NumberContent` | src/presentation/utils/text_utils.py:101-113 | The cleaned content of a number line is stripped. |
| `TextUtils.CleanWithSpec` | src/presentation/utils/text_utils.py:97-118 | A non-number line comes back stripped. A number line comes back as "<не найдено>" exactly when its content is date-shaped or has no digit. Otherwise it comes back as the stripped content, which holds a digit. So a number line never gives an empty result. |
| `TextUtils.BlankLineGivesEmpty` | src/presentation/utils/text_utils.py:98-99 | A blank line is not a number line and comes back empty. |
| `TextUtils.ActOfWorksShadowed` | src/presentation/utils/text_utils.py:103-108 | Whenever "акт выполненных работ" could match, "акт" matches first, and only "акт" is removed. |
| `TextUtils.ActOfWorksRemoved` | src/presentation/utils/text_utils.py:103-108 | With the long phrase tried first, the whole phrase is removed. |
| `TextUtils.IntendedAgreesOtherwise` | src/presentation/utils/text_utils.py:103-108 | The corrected order removes the same as the source's order for every content that does not start with the long phrase. |
| `TextUtils.ActLineCleaned` | src/presentation/utils/text_utils.py:97-118 | As written, "номер: акт выполненных работ 7" cleans to "выполненных работ 7". With the corrected order it cleans to "7". |

## Definitions

The functions below define what the source computes. Their properties are stated by the members of the table above.

| definition | source | models |
|---|---|---|
| `Heading.IsTitleCase` | src/application/use_cases/parse_menu.py:22-23 | the Title-Case test on the words of the text |
| `Heading.HasCurrencyDigit` | src/application/use_cases/parse_menu.py:27 | `re.search(r"[\$€£]\s*\d", text)` |
| `Heading.EndsWithNumber` | src/application/use_cases/parse_menu.py:29 | `re.search(r"\d+\s*[.,]?\d{0,2}$", text)` |
| `Price.MatchAt` | src/application/use_cases/parse_menu.py:37 | where the price pattern's match from one index ends, if it matches there |
| `Price.DollarMatchAt` | src/application/use_cases/parse_menu.py:37 | the `\$\s*\d+[\.,]?\d{0,2}` alternative |
| `Price.NumberMatchAt` | src/application/use_cases/parse_menu.py:37 | the `\b\d+[\.,]?\d{0,2}\b` alternative |
| `Segmentation.ChosenText` | src/application/use_cases/parse_menu.py:60 | the choice between the two OCR texts |
| `Segmentation.Describe` | src/application/use_cases/parse_menu.py:71-75 | the description built from the continuation parts |
| `Segmentation.Finalize` | src/application/use_cases/parse_menu.py:69-76 | the open dish as it is emitted |
| `Segmentation.Flush` | src/application/use_cases/parse_menu.py:67-78 | `flush_current` on the walk's state |
| `Segmentation.Continues` | src/application/use_cases/parse_menu.py:91-94 | the continuation test |
| `Segmentation.NamePart` | src/application/use_cases/parse_menu.py:101-106 | the name part of a dish line |
| `Segmentation.DishLine` | src/application/use_cases/parse_menu.py:100-126 | a line that is neither a heading nor a continuation |
| `Segmentation.Step` | src/application/use_cases/parse_menu.py:80-126 | one iteration of the loop |
| `Segmentation.Run` | src/application/use_cases/parse_menu.py:80-126 | the loop over all lines |
| `Segmentation.Heuristic` | src/application/use_cases/parse_menu.py:63-137 | the walk, the final flush and the junk filter |
| `Refinement.ModelItem` | src/application/use_cases/parse_menu.py:153-179 | one element of the parsed reply |
| `Refinement.ModelItems` | src/application/use_cases/parse_menu.py:152-179 | the list built from the parsed reply |
| `Refinement.Refine` | src/application/use_cases/parse_menu.py:139-186 | the choice between the model's list and the heuristic list |
| `ParseMenu.MenuItems` | src/application/use_cases/parse_menu.py:57-186 | `execute` as a whole |
| `TextUtils.FirstKey` | src/presentation/utils/text_utils.py:28-31 | the first-match loop over the month map |
| `TextUtils.MonthCode` | src/presentation/utils/text_utils.py:26-31 | `fix_month_text` |
| `TextUtils.RussianDate` | src/presentation/utils/text_utils.py:35-49 | the month-name branch of `try_parse_date` |
| `TextUtils.MonthDate` | src/presentation/utils/text_utils.py:39-49 | the date read from the first three words |
| `TextUtils.NatText` | src/presentation/utils/text_utils.py:47 | `str(n)` |
| `TextUtils.Pad` | src/presentation/utils/text_utils.py:47 | the `:04d` and `:02d` formats |
| `TextUtils.SquashFrom` | src/presentation/utils/text_utils.py:51 | the substitution around the separators |
| `TextUtils.ParseDate` | src/presentation/utils/text_utils.py:33-70 | `try_parse_date` |
| `TextUtils.NormalizeLine` | src/presentation/utils/text_utils.py:74-83 | the rewrite of one line |
| `TextUtils.NumeroFrom` | src/presentation/utils/text_utils.py:102 | the `№` substitution |
| `TextUtils.DropKind` | src/presentation/utils/text_utils.py:103-108 | the removal of a leading document kind |
| `TextUtils.LabelEnd` | src/presentation/utils/text_utils.py:111-113 | the end of a leading `номер` or `дата` label |
| `TextUtils.DateShaped` | src/presentation/utils/text_utils.py:114 | the date-shaped `fullmatch` |
| `TextUtils.CleanWith` | src/presentation/utils/text_utils.py:97-118 | `clean_doc_number` for a given list of kinds |
| `TextUtils.CleanDocNumber` | src/presentation/utils/text_utils.py:97-118 | `clean_doc_number` with the kinds in the source's order |
| `TextUtils.CleanDocNumberIntended` | src/presentation/utils/text_utils.py:97-118 | `clean_doc_number` with the long kind tried first |

## Findings

| source | as written | input that shows it | evidently intended | confidence | as-written member | corrected member |
|---|---|---|---|---|---|---|
| src/presentation/utils/text_utils.py:103-108 | The alternation lists "акт" before "акт выполненных работ". Regular-expression alternation takes the first alternative that matches, and "акт" followed by a space always matches, so the long alternative can never be chosen. | "номер: акт выполненных работ 7" cleans to "выполненных работ 7" | the whole kind "акт выполненных работ" removed, giving "7" | high; not executed | `TextUtils.CleanDocNumber`, shown by `TextUtils.ActOfWorksShadowed` and `TextUtils.ActLineCleaned` | `TextUtils.CleanDocNumberIntended`, proved by `TextUtils.ActOfWorksRemoved` and `TextUtils.IntendedAgreesOtherwise` |

## Left out

- **OCR, PDF reading and the model call.** Rasterising the PDF, OCR and the HTTP call to the model are external. Their outputs are parameters.
- **`json.loads` and the prompt text.** The reply is given already parsed, or as a failure.
- **Floating point.** Prices and JSON numbers are exact reals, so IEEE rounding is not modelled. `float()` of a huge JSON integer raises `OverflowError` in Python, which sends the whole model block to the heuristic fallback; that failure is not modelled.
- **Other `float()` forms.** `float()` on a model's string price is modelled for decimal notation: an optional sign, `D+`, `D+.D*` or `.D+`, with surrounding whitespace. Exponents, `inf`, `nan` and digit separators are not covered.
- **`str()` of non-string JSON values.** `str()` of numbers, lists and dicts is the `render` parameter, and its text is not modelled.
- **The Unicode alphabet.** Letters are ASCII and the Cyrillic block U+0400..U+045F. Digits are ASCII. Whitespace and line boundaries are their ASCII members. Other Unicode whitespace, digits, letters and the boundaries U+0085, U+2028 and U+2029 are outside the model.
- **Case-insensitive matching.** IGNORECASE matching is modelled as comparison after lower-casing.
- **`uuid.uuid4()`** is a counter. Randomness and the hex form are not modelled.
- **`strptime` and `strftime`.** They are one oracle parameter, so which dates each format accepts is not modelled.
- **The `len(parts) >= 3` test** in `try_parse_date` is modelled as a branch. A month-pattern match always yields at least three words, but that is not proved.
- **The `except Exception` around the date formatting** in `try_parse_date` is not modelled. The `int()` digit limit of Python 3.11 and later (4300 digits) is not modelled either: for a day or year word with more digits, lines 48-49 of text_utils.py return no date where `MonthDate` gives one.
- **The "сент" entry** of the month map is modelled. `SentShadowed` proves that it never decides a code.
- SplitLines: its own contract states only that no piece holds a boundary. What the pieces are is stated by `SplitLinesJoin`.
- KeepNonBlank: its own contract states only the shape of the kept lines. Which lines are kept, and in what order, is stated by `KeepNonBlankMembers`, `KeepNonBlankConcat` and `KeepNonBlankOne`.
- PrepareLines: its own contract states only the shape of the lines. Which lines they are is stated by `PrepareLinesSpec`.
- KeepDigits: its own contract states only that the result is digits. The rest is stated by `KeepDigitsSpec` and `KeepDigitsConcat`.
- SquashKeepsText: it says only that non-space characters survive in order. Which whitespace survives is stated by `SquashKeepsPlain` and `SquashNoSeparator`. Whitespace inside a run that ends at a separator is dropped, and that is stated only through the definition.
- **The rest of the repository.** The web application, logging, configuration and dependency wiring are not part of this model. The document-analysis use case, which only filters blank lines around model calls, is not part of this model either.
