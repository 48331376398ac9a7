/** `ParseMenuUseCase.execute` (src/application/use_cases/parse_menu.py,
    lines 57-186) end to end: choose an OCR text, cut it into lines, run the
    heuristic segmentation, drop nameless dishes, and let a parsed model
    reply replace the result when it yields any dish.

    The two OCR texts and the model's reply are parameters: reading the
    PDF, running OCR and calling the model are outside the model. */
module ParseMenu {
  import opened Strings
  import opened Segmentation
  import opened Refinement

  /** What `execute` returns for these OCR texts and this reply; dish ids
      are drawn from a counter starting at `firstId`. */
  function MenuItems(easy: string, tess: string, llmOn: bool, reply: LlmReply,
                     render: Json -> string, firstId: nat): seq<Dish>
  {
    var text := ChosenText(easy, tess);
    var (heuristic, next) := Heuristic(PrepareLines(text), firstId);
    Refine(heuristic, next, llmOn, text, reply, render)
  }

  /** Lines 57-186 as the source runs them. */
  method Execute(easy: string, tess: string, llmOn: bool, reply: LlmReply,
                 render: Json -> string, firstId: nat) returns (dishes: seq<Dish>)
    ensures dishes == MenuItems(easy, tess, llmOn, reply, render, firstId)
  {
    var text := if Strip(easy) != [] then Strip(easy) else Strip(tess);
    var lines := PrepareLines(text);
    var items, nextId := SegmentLines(lines, firstId);
    var heuristic := DropNameless(items);
    dishes := heuristic;
    if llmOn && Strip(text) != [] && reply.Parsed? && reply.value.JArray? {
      var model, _ := NormaliseModelItems(reply.value.elems, nextId, render);
      if model != [] {
        dishes := model;
      }
    }
  }

  /** Whichever list wins, every dish has a non-blank name and the ids are
      increasing and at least `firstId`. */
  lemma MenuItemsShape(easy: string, tess: string, llmOn: bool, reply: LlmReply,
                       render: Json -> string, firstId: nat)
    ensures var r := MenuItems(easy, tess, llmOn, reply, render, firstId);
      IdsIncreasing(r) && forall k :: 0 <= k < |r| ==> HasName(r[k]) && firstId <= r[k].id
  {
    var text := ChosenText(easy, tess);
    var h := Heuristic(PrepareLines(text), firstId);
    HeuristicShape(PrepareLines(text), firstId);
    RefinePrecedence(h.0, h.1, llmOn, text, reply, render);
    if llmOn && Strip(text) != [] && reply.Parsed? && reply.value.JArray? {
      ModelItemsShape(reply.value.elems, h.1, render);
      ModelIdsIncreasing(reply.value.elems, h.1, render);
    }
  }

  /** Two blank OCR texts give an empty menu, whatever the model would say. */
  lemma BlankTextsGiveNothing(easy: string, tess: string, llmOn: bool, reply: LlmReply,
                              render: Json -> string, firstId: nat)
    requires Strip(easy) == [] && Strip(tess) == []
    ensures MenuItems(easy, tess, llmOn, reply, render, firstId) == []
  {
    assert ChosenText(easy, tess) == [];
    assert SplitLines([]) == [];
    assert PrepareLines([]) == [];
    assert Run(Start(firstId), []) == Start(firstId);
  }

  /** The second OCR text is read only when the first is blank. */
  lemma FirstTextPreferred(easy: string, tess: string, other: string, llmOn: bool, reply: LlmReply,
                           render: Json -> string, firstId: nat)
    requires Strip(easy) != []
    ensures MenuItems(easy, tess, llmOn, reply, render, firstId)
            == MenuItems(easy, other, llmOn, reply, render, firstId)
  {
  }

  /** A failed model call, or no model, leaves the heuristic list. */
  lemma NoModelMeansHeuristic(easy: string, tess: string, llmOn: bool, reply: LlmReply,
                              render: Json -> string, firstId: nat)
    requires !llmOn || reply == Failed
    ensures MenuItems(easy, tess, llmOn, reply, render, firstId)
            == Heuristic(PrepareLines(ChosenText(easy, tess)), firstId).0
  {
  }
}
