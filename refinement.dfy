/** The language-model post-processor of `ParseMenuUseCase.execute`
    (src/application/use_cases/parse_menu.py, lines 139-186): a reply that
    parses as a JSON array is normalised item by item, and the normalised
    list replaces the heuristic one when it is non-empty.

    The call itself and `json.loads` are outside the model: the reply is
    given as a failure or a parsed JSON value.  Python's `str()` of a JSON
    number, array or object is a parameter, `render`. */
module Refinement {
  import opened Strings
  import opened Segmentation
  import opened Price

  /** A value `json.loads` can return.  JSON integers and floats are both
      `JNumber`, as exact numbers. */
  datatype Json =
    | JNull
    | JBool(b: bool)
    | JNumber(n: real)
    | JString(s: string)
    | JArray(elems: seq<Json>)
    | JObject(fields: map<string, Json>)

  /** What came back from the model: `_post_prompt` or `json.loads` raised,
      or the reply parsed. */
  datatype LlmReply = Failed | Parsed(value: Json)

  /** `str(v)`: strings as they are, `None`/`True`/`False` by name, and
      anything else as `render` writes it. */
  function PyStr(v: Json, render: Json -> string): string {
    match v
    case JString(s) => s
    case JNull => "None"
    case JBool(b) => if b then "True" else "False"
    case _ => render(v)
  }

  /** `obj.get(key, default)` passed through `str()`. */
  function FieldText(fields: map<string, Json>, key: string, default: string, render: Json -> string): string {
    if key in fields then PyStr(fields[key], render) else default
  }

  /** Lines 165-175: a JSON number (a `bool` being an `int`) becomes a
      number; a string with a currency symbol is kept stripped; any other
      string is read by `float()` with commas as points, and kept stripped
      when that fails; anything else gives no price. */
  function ModelPrice(fields: map<string, Json>): (p: Option<DishPrice>)
    ensures p.Some? && p.value.Literal? ==> Strip(p.value.token) == p.value.token
  {
    if "price" !in fields then None
    else match fields["price"]
      case JNumber(n) => Some(Numeric(n))
      case JBool(b) => Some(Numeric(if b then 1.0 else 0.0))
      case JString(s) =>
        StripByIdempotent(s, Spaces);
        if HasCurrencySign(s) then Some(Literal(Strip(s)))
        else (match ParseDecimal(ReplaceChar(s, ',', '.'))
          case Some(v) => Some(Numeric(v))
          case None => Some(Literal(Strip(s))))
      case _ => None
  }

  /** Lines 154-179 for one element: skipped unless it is an object with a
      non-blank `dish_name`; otherwise a dish with id `id`. */
  function ModelItem(obj: Json, id: nat, render: Json -> string): Option<Dish> {
    match obj
    case JObject(fields) =>
      var name := Strip(FieldText(fields, "dish_name", "", render));
      if name == [] then None
      else
        var category := Strip(FieldText(fields, "category", Uncategorized, render));
        var desc := Strip(FieldText(fields, "description", "", render));
        Some(Dish(id, name, if category != [] then category else Uncategorized,
                  ModelPrice(fields), if desc != [] then Some(desc) else None))
    case _ => None
  }

  /** The list built by the loop at lines 153-179, and the next fresh id. */
  function ModelItems(objs: seq<Json>, firstId: nat, render: Json -> string): (seq<Dish>, nat)
    decreases |objs|
  {
    if objs == [] then ([], firstId)
    else
      var prev := ModelItems(objs[..|objs| - 1], firstId, render);
      Append(prev, ModelItem(objs[|objs| - 1], prev.1, render))
  }

  /** The list and the next id once an element has been normalised:
      a kept dish is appended and uses one id, a skipped element changes
      nothing. */
  function Append(acc: (seq<Dish>, nat), item: Option<Dish>): (seq<Dish>, nat) {
    match item
    case Some(d) => (acc.0 + [d], acc.1 + 1)
    case None => acc
  }

  /** Lines 139-186: the heuristic list unless the model is configured, the
      text is not blank, the reply parsed as an array, and its normalised
      list is non-empty. */
  function Refine(heuristic: seq<Dish>, nextId: nat, llmOn: bool, text: string,
                  reply: LlmReply, render: Json -> string): seq<Dish>
  {
    if llmOn && Strip(text) != [] && reply.Parsed? && reply.value.JArray? then
      var (model, _) := ModelItems(reply.value.elems, nextId, render);
      if model != [] then model else heuristic
    else heuristic
  }

  // ----- What a model item looks like -----

  /** A normalised model item: a non-empty stripped name and category, a
      description only when non-empty and stripped, a literal price only
      when stripped. */
  predicate ModelDishOk(d: Dish) {
    d.name != [] && Strip(d.name) == d.name
    && d.category != [] && Strip(d.category) == d.category
    && DescOk(d.description)
    && (d.price.Some? && d.price.value.Literal? ==> Strip(d.price.value.token) == d.price.value.token)
  }

  /** An element is skipped exactly when it is not an object or its
      stripped `dish_name` is empty; a kept one gets the id offered and the
      shape above. */
  lemma ModelItemShape(obj: Json, id: nat, render: Json -> string)
    ensures ModelItem(obj, id, render).None? <==>
            !obj.JObject? || Strip(FieldText(obj.fields, "dish_name", "", render)) == []
    ensures ModelItem(obj, id, render).Some? ==>
            ModelDishOk(ModelItem(obj, id, render).value) && ModelItem(obj, id, render).value.id == id
  {
    if obj.JObject? {
      var fields := obj.fields;
      StripByIdempotent(FieldText(fields, "dish_name", "", render), Spaces);
      StripByIdempotent(FieldText(fields, "category", Uncategorized, render), Spaces);
      StripByIdempotent(FieldText(fields, "description", "", render), Spaces);
      UncategorizedStripped();
    }
  }

  lemma UncategorizedStripped()
    ensures Strip(Uncategorized) == Uncategorized
  {
    assert TrimStart(Uncategorized, Spaces, 0) == 0;
    assert TrimEnd(Uncategorized, Spaces, 0, |Uncategorized|) == |Uncategorized|;
    assert Uncategorized[0..|Uncategorized|] == Uncategorized;
  }

  /** A missing or blank category becomes "UNCATEGORIZED"; any other is
      kept stripped, and not upper-cased. */
  lemma ModelCategory(fields: map<string, Json>, id: nat, render: Json -> string)
    requires Strip(FieldText(fields, "dish_name", "", render)) != []
    ensures var c := Strip(FieldText(fields, "category", Uncategorized, render));
      ModelItem(JObject(fields), id, render).value.category == if c == [] then Uncategorized else c
    ensures "category" !in fields ==> ModelItem(JObject(fields), id, render).value.category == Uncategorized
  {
    UncategorizedStripped();
  }

  /** A string price with a currency symbol is kept as a literal, stripped;
      any other string is read by `float()` with commas as points, and kept
      as a stripped literal when that fails; a number is kept as that number
      and a `bool` as 1 or 0; anything else gives no price. */
  lemma ModelPriceKinds(fields: map<string, Json>)
    ensures "price" in fields && fields["price"].JString? && HasCurrencySign(fields["price"].s) ==>
            ModelPrice(fields) == Some(Literal(Strip(fields["price"].s)))
    ensures "price" in fields && fields["price"].JString? && !HasCurrencySign(fields["price"].s) ==>
            var v := ParseDecimal(ReplaceChar(fields["price"].s, ',', '.'));
            (v.Some? ==> ModelPrice(fields) == Some(Numeric(v.value)))
            && (v.None? ==> ModelPrice(fields) == Some(Literal(Strip(fields["price"].s))))
    ensures "price" in fields && fields["price"].JNumber? ==> ModelPrice(fields) == Some(Numeric(fields["price"].n))
    ensures "price" in fields && fields["price"].JBool? ==>
            ModelPrice(fields) == Some(Numeric(if fields["price"].b then 1.0 else 0.0))
    ensures ("price" !in fields || fields["price"].JNull? || fields["price"].JArray? || fields["price"].JObject?) ==>
            ModelPrice(fields).None?
  {
  }

  /** A numeral string price, such as "9.5" or "12,50", becomes its value. */
  lemma ModelPriceNumeral(fields: map<string, Json>)
    requires "price" in fields && fields["price"].JString? && IsNumeral(fields["price"].s)
    ensures ModelPrice(fields) == Some(Numeric(NumeralValue(fields["price"].s)))
  {
    NumeralHasNoCurrency(fields["price"].s);
    NumeralParses(fields["price"].s);
  }

  /** Every model item has the shape above, the ids are fresh and grow from
      `firstId`, and one id is used per kept element. */
  lemma {:induction false} ModelItemsShape(objs: seq<Json>, firstId: nat, render: Json -> string)
    ensures var (items, next) := ModelItems(objs, firstId, render);
      next == firstId + |items| && |items| <= |objs|
      && (forall k :: 0 <= k < |items| ==> ModelDishOk(items[k]) && items[k].id == firstId + k)
    decreases |objs|
  {
    if objs != [] {
      var (items, next) := ModelItems(objs[..|objs| - 1], firstId, render);
      ModelItemsShape(objs[..|objs| - 1], firstId, render);
      ModelItemShape(objs[|objs| - 1], next, render);
    }
  }

  /** Model items have ids in increasing order. */
  lemma ModelIdsIncreasing(objs: seq<Json>, firstId: nat, render: Json -> string)
    ensures IdsIncreasing(ModelItems(objs, firstId, render).0)
  {
    ModelItemsShape(objs, firstId, render);
  }

  // ----- Which list wins -----

  /** The model's list is returned exactly when the model is configured,
      the text is not blank, the reply parsed as an array and its
      normalised list is non-empty; in every other case, a failed reply
      included, the heuristic list is returned unchanged. */
  lemma RefinePrecedence(heuristic: seq<Dish>, nextId: nat, llmOn: bool, text: string,
                         reply: LlmReply, render: Json -> string)
    ensures var wins := llmOn && Strip(text) != [] && reply.Parsed? && reply.value.JArray?
                        && ModelItems(reply.value.elems, nextId, render).0 != [];
      (wins ==> Refine(heuristic, nextId, llmOn, text, reply, render) == ModelItems(reply.value.elems, nextId, render).0)
      && (!wins ==> Refine(heuristic, nextId, llmOn, text, reply, render) == heuristic)
  {
  }

  /** A failed call or an unparseable reply changes nothing. */
  lemma FailedReplyKeepsHeuristic(heuristic: seq<Dish>, nextId: nat, llmOn: bool, text: string, render: Json -> string)
    ensures Refine(heuristic, nextId, llmOn, text, Failed, render) == heuristic
  {
  }

  // ----- The loop of the source -----

  /** Lines 152-179: the loop over the parsed array. */
  method NormaliseModelItems(objs: seq<Json>, firstId: nat, render: Json -> string)
    returns (items: seq<Dish>, nextId: nat)
    ensures (items, nextId) == ModelItems(objs, firstId, render)
  {
    items := [];
    nextId := firstId;
    var i := 0;
    while i < |objs|
      invariant i <= |objs|
      invariant (items, nextId) == ModelItems(objs[..i], firstId, render)
    {
      var obj := objs[i];
      ItemsStep(objs, i, firstId, render);
      if !obj.JObject? {
        i := i + 1;
        continue;
      }
      var name := Strip(FieldText(obj.fields, "dish_name", "", render));
      if name == [] {
        i := i + 1;
        continue;
      }
      var category := Strip(FieldText(obj.fields, "category", Uncategorized, render));
      var desc := Strip(FieldText(obj.fields, "description", "", render));
      var out := Dish(nextId, name, if category != [] then category else Uncategorized,
                      ModelPrice(obj.fields), if desc != [] then Some(desc) else None);
      items := items + [out];
      nextId := nextId + 1;
      i := i + 1;
    }
    assert objs[..|objs|] == objs;
  }

  /** One more element: the next prefix's list is the current one with
      what `ModelItem` makes of the element appended. */
  lemma ItemsStep(objs: seq<Json>, i: nat, firstId: nat, render: Json -> string)
    requires i < |objs|
    ensures var prev := ModelItems(objs[..i], firstId, render);
      ModelItems(objs[..i + 1], firstId, render) == Append(prev, ModelItem(objs[i], prev.1, render))
  {
    var prefix := objs[..i + 1];
    assert prefix[..|prefix| - 1] == objs[..i];
    assert prefix[|prefix| - 1] == objs[i];
  }

  // ----- A worked reply -----

  const Burger := JObject(map["dish_name" := JString("Burger"), "price" := JString("9.5")])

  lemma BurgerStripped()
    ensures Strip("Burger") == "Burger"
  {
    assert TrimStart("Burger", Spaces, 0) == 0;
    assert TrimEnd("Burger", Spaces, 0, 6) == 6;
  }

  lemma NinePointFive()
    ensures ParseDecimal(ReplaceChar("9.5", ',', '.')) == Some(9.5)
  {
    assert ReplaceChar("9.5", ',', '.') == "9.5";
    assert TrimStart("9.5", Spaces, 0) == 0;
    assert TrimEnd("9.5", Spaces, 0, 3) == 3;
    assert Strip("9.5") == "9.5";
    assert DigitRun("9.5", 0) == 1;
    assert "9.5"[..1] == "9" && "9.5"[2..] == "5";
    assert DigitsValue("9") == 9 && DigitsValue("5") == 5;
    assert Pow10(1) == 10;
  }

  lemma BurgerFields(render: Json -> string)
    ensures FieldText(Burger.fields, "dish_name", "", render) == "Burger"
    ensures FieldText(Burger.fields, "category", Uncategorized, render) == Uncategorized
    ensures FieldText(Burger.fields, "description", "", render) == ""
    ensures Burger.fields["price"] == JString("9.5")
  {
    assert "category" != "dish_name" && "category" != "price";
    assert "description" != "dish_name" && "description" != "price";
  }

  lemma BurgerItem(id: nat, render: Json -> string)
    ensures ModelItem(Burger, id, render) == Some(Dish(id, "Burger", Uncategorized, Some(Numeric(9.5)), None))
  {
    BurgerFields(render);
    BurgerStripped();
    UncategorizedStripped();
    NinePointFive();
    assert !HasCurrencySign("9.5");
    assert ModelPrice(Burger.fields) == Some(Numeric(9.5));
    assert Strip("") == [];
  }

  /** A one-item reply with a plain numeric string price replaces the
      heuristic list by exactly one dish, uncategorised and without a
      description. */
  lemma BurgerReply(heuristic: seq<Dish>, nextId: nat, text: string, render: Json -> string)
    requires Strip(text) != []
    ensures Refine(heuristic, nextId, true, text, Parsed(JArray([Burger])), render)
            == [Dish(nextId, "Burger", Uncategorized, Some(Numeric(9.5)), None)]
  {
    BurgerItem(nextId, render);
    assert [Burger][..0] == [];
    assert ModelItems([Burger], nextId, render).0 == [Dish(nextId, "Burger", Uncategorized, Some(Numeric(9.5)), None)];
  }
}
