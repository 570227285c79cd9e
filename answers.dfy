/** The texts the responder builds from the relevant items: the joined
    source answer, the list of options shown when several items match, the
    prompt sent to the language model for a single item, and the reading of
    the model's reply. */
module Answers {
  import opened Text
  import opened Matching
  import opened Sessions

  // ------------------------------------------------------ build_base_answer

  /** The text one item contributes: `"name: hint"` for navigation, the
      answer for a rule. */
  function Part(it: Item): (p: string)
    ensures it.NavItem? ==> p != ""
    ensures it.RuleItem? ==> p == it.answer
  {
    match it
    case NavItem(name, hint) => name + ": " + hint
    case RuleItem(answer) => answer
  }

  function Parts(items: seq<Item>): (ps: seq<string>)
    ensures |ps| == |items|
  {
    if items == [] then [] else Parts(items[..|items| - 1]) + [Part(items[|items| - 1])]
  }

  /** `[p for p in parts if p]`. */
  function NonEmpty(parts: seq<string>): (r: seq<string>)
    ensures forall i :: 0 <= i < |r| ==> r[i] != ""
    ensures |r| <= |parts|
  {
    if parts == [] then []
    else
      var last := parts[|parts| - 1];
      NonEmpty(parts[..|parts| - 1]) + (if last == "" then [] else [last])
  }

  const PartSeparator: string := "\n\n"

  /** What `build_base_answer` returns. */
  function BaseAnswer(items: seq<Item>): string {
    if items == [] then "" else Join(NonEmpty(Parts(items)), PartSeparator)
  }

  /** `build_base_answer`: the loop collects one part per item, in order;
      the empty parts are then dropped and the rest joined. */
  method BuildBaseAnswer(knowledge: seq<Item>) returns (r: string)
    ensures r == BaseAnswer(knowledge)
  {
    if knowledge == [] {
      return "";
    }
    var parts: seq<string> := [];
    var i := 0;
    while i < |knowledge|
      invariant 0 <= i <= |knowledge|
      invariant parts == Parts(knowledge[..i])
    {
      var item := knowledge[i];
      match item {
        case NavItem(name, hint) =>
          parts := parts + [name + ": " + hint];
        case RuleItem(answer) =>
          parts := parts + [answer];
      }
      assert knowledge[..i + 1][..i] == knowledge[..i];
      i := i + 1;
    }
    assert knowledge[..i] == knowledge;
    r := Join(NonEmpty(parts), PartSeparator);
  }

  lemma {:induction false} NonEmptyIsEmpty(parts: seq<string>)
    ensures NonEmpty(parts) == [] <==> forall i :: 0 <= i < |parts| ==> parts[i] == ""
  {
    if parts != [] {
      var init := parts[..|parts| - 1];
      NonEmptyIsEmpty(init);
      assert forall i :: 0 <= i < |init| ==> init[i] == parts[i];
    }
  }

  lemma PartsAt(items: seq<Item>, i: nat)
    requires i < |items|
    ensures Parts(items)[i] == Part(items[i])
  {
    if i < |items| - 1 {
      PartsAt(items[..|items| - 1], i);
    }
  }

  /** The base answer is empty exactly when every item is a rule with an
      empty answer (a navigation item always renders as `"name: hint"`). */
  lemma BaseAnswerEmpty(items: seq<Item>)
    ensures BaseAnswer(items) == "" <==> forall i :: 0 <= i < |items| ==> items[i].RuleItem? && items[i].answer == ""
  {
    if items != [] {
      var ps := Parts(items);
      JoinEmptyIff(NonEmpty(ps), PartSeparator);
      NonEmptyIsEmpty(ps);
      forall i | 0 <= i < |items| ensures ps[i] == Part(items[i]) {
        PartsAt(items, i);
      }
    }
  }

  /** Items keep their order: one more item adds its part at the end,
      after the separator, unless the part is empty. */
  lemma BaseAnswerSnoc(items: seq<Item>, it: Item)
    ensures BaseAnswer(items + [it]) ==
      if Part(it) == "" then BaseAnswer(items)
      else if BaseAnswer(items) == "" then Part(it)
      else BaseAnswer(items) + PartSeparator + Part(it)
  {
    var all := items + [it];
    assert all[..|all| - 1] == items;
    assert all[|all| - 1] == it;
    var ps := Parts(items);
    var ps' := ps + [Part(it)];
    assert Parts(all) == ps';
    assert ps'[..|ps'| - 1] == ps;
    assert ps'[|ps'| - 1] == Part(it);
    var ne := NonEmpty(ps);
    assert NonEmpty(ps') == ne + (if Part(it) == "" then [] else [Part(it)]);
    assert items == [] ==> ne == [];
    if Part(it) == "" {
      assert ne + [] == ne;
    } else {
      JoinSnoc(ne, Part(it), PartSeparator);
      JoinEmptyIff(ne, PartSeparator);
    }
  }

  // ------------------------------------------------------------ ask_ai texts

  /** The fixed reply when nothing in the knowledge base matches. */
  const NotFoundText: string :=
    "Я не нашёл точного ответа в базе. Можете уточнить вопрос (например, где именно нажимаете или что пытаетесь сделать)?"

  const OptionsHeader: string :=
    "Я нашёл несколько вариантов, уточните, пожалуйста, что именно вы имеете в виду:\n\n"

  const OptionsFooter: string := "\n\nНапишите название раздела или ключевое слово."

  /** The fixed reply when the model itself asks for clarification. */
  const NeedMoreText: string :=
    "Мне нужно чуть больше информации, чтобы точно ответить. Можете уточнить ваш вопрос?"

  const ServiceErrorPrefix: string := "⚠️ Ошибка сервиса: "

  const OptionWidth: nat := 60

  /** How an item is listed among several options: a navigation item by its
      name, or by the first 60 characters of its hint when it has no name;
      a rule by the first 60 characters of its answer. */
  function OptionLabel(it: Item): (o: string)
    ensures it.RuleItem? ==> o <= it.answer && |o| == if |it.answer| < OptionWidth then |it.answer| else OptionWidth
    ensures it.NavItem? && it.name != "" ==> o == it.name
    ensures it.NavItem? && it.name == "" ==> o <= it.hint && |o| == if |it.hint| < OptionWidth then |it.hint| else OptionWidth
  {
    match it
    case NavItem(name, hint) => if name != "" then name else Take(hint, OptionWidth)
    case RuleItem(answer) => Take(answer, OptionWidth)
  }

  /** The options loop of `ask_ai`: one label per item, in item order. */
  method ListOptions(knowledge: seq<Item>) returns (options: seq<string>)
    ensures |options| == |knowledge|
    ensures forall i :: 0 <= i < |knowledge| ==> options[i] == OptionLabel(knowledge[i])
  {
    options := [];
    var i := 0;
    while i < |knowledge|
      invariant 0 <= i <= |knowledge|
      invariant |options| == i
      invariant forall k :: 0 <= k < i ==> options[k] == OptionLabel(knowledge[k])
    {
      var it := knowledge[i];
      match it {
        case NavItem(name, hint) =>
          options := options + [if name != "" then name else Take(hint, OptionWidth)];
        case RuleItem(answer) =>
          options := options + [Take(answer, OptionWidth)];
      }
      i := i + 1;
    }
  }

  /** The labels `ListOptions` computes, as a function. */
  function OptionLabels(items: seq<Item>): (r: seq<string>)
    ensures |r| == |items|
    ensures forall i :: 0 <= i < |items| ==> r[i] == OptionLabel(items[i])
  {
    if items == [] then [] else [OptionLabel(items[0])] + OptionLabels(items[1..])
  }

  /** One `"• "` line per option. */
  function Bullets(options: seq<string>): (r: seq<string>)
    ensures |r| == |options|
    ensures forall i :: 0 <= i < |options| ==> r[i] == "• " + options[i]
  {
    if options == [] then [] else ["• " + options[0]] + Bullets(options[1..])
  }

  /** The reply listing several options. */
  function OptionsText(options: seq<string>): string {
    OptionsHeader + Join(Bullets(options), "\n") + OptionsFooter
  }

  /** Every matched item shows up in the reply as a `"• "` line. */
  lemma OptionsListEveryItem(items: seq<Item>, i: nat)
    requires i < |items|
    ensures Contains(OptionsText(OptionLabels(items)), "• " + OptionLabel(items[i]))
  {
    var bullets := Bullets(OptionLabels(items));
    JoinContainsPart(bullets, "\n", i);
    ContainsPrefixPart(OptionsHeader, Join(bullets, "\n"), OptionsFooter);
    ContainsTransitive(OptionsText(OptionLabels(items)), Join(bullets, "\n"), bullets[i]);
  }

  /** The label and the text of the single source handed to the model. */
  function SourceLabel(it: Item): string {
    match it
    case NavItem(name, _) => name
    case RuleItem(_) => RuleLabel
  }

  function SourceText(it: Item): string {
    match it
    case NavItem(_, hint) => hint
    case RuleItem(answer) => answer
  }

  const RuleLabel: string := "Правило"
  const SourceIntro: string := "Используй ТОЛЬКО следующий источник:\n"
  const SourceOpen: string := "Источник ("
  const SourceClose: string := "):\n"
  const QuestionIntro: string := "Вопрос: "
  const QuestionOutro: string :=
    "\n\nОтветь простым человеческим языком, опираясь только на источник выше. Если нужно — попроси уточнить."

  /** The three messages sent to the model for a single relevant item: the
      system prompt, the source as an assistant turn, and the question. */
  function Prompt(systemPrompt: string, it: Item, q: string): (msgs: seq<ChatMessage>)
    ensures |msgs| == 3
    ensures msgs[0] == ChatMessage("system", systemPrompt)
    ensures msgs[1].role == "assistant" && msgs[2].role == "user"
  {
    var baseSource := SourceOpen + SourceLabel(it) + SourceClose + SourceText(it);
    [ ChatMessage("system", systemPrompt),
      ChatMessage("assistant", SourceIntro + baseSource),
      ChatMessage("user", QuestionIntro + q + QuestionOutro) ]
  }

  /** The model sees the item's source text and the question verbatim. */
  lemma PromptCarriesSource(systemPrompt: string, it: Item, q: string)
    ensures Contains(Prompt(systemPrompt, it, q)[1].content, SourceText(it))
    ensures Contains(Prompt(systemPrompt, it, q)[2].content, q)
  {
    var pre := SourceIntro + (SourceOpen + SourceLabel(it) + SourceClose);
    assert Prompt(systemPrompt, it, q)[1].content == pre + SourceText(it);
    ContainsSuffix(pre, SourceText(it));
    ContainsPrefixPart(QuestionIntro, q, QuestionOutro);
  }

  // ---------------------------------------------------------- model's reply

  /** What the model call produced: a reply text, or the message of the
      exception it raised. */
  datatype ModelReply = Replied(text: string) | Failed(error: string)

  const ShortReplyLimit: nat := 200

  /** The reply asks for clarification or says it cannot answer, and is
      short: `("уточн" in low or "не могу" in low or "нужно уточнить" in low)
      and len(answer) < 200` with `low` the lower-cased reply. */
  predicate SignalsUncertainty(answer: string) {
    var low := Lower(answer);
    (Contains(low, "уточн") || Contains(low, "не могу") || Contains(low, "нужно уточнить"))
    && |answer| < ShortReplyLimit
  }

  /** The third marker adds nothing: every text containing "нужно уточнить"
      contains "уточн". */
  lemma UncertaintyNeedsTwoMarkers(answer: string)
    ensures SignalsUncertainty(answer) <==>
      (Contains(Lower(answer), "уточн") || Contains(Lower(answer), "не могу")) && |answer| < ShortReplyLimit
  {
    var low := Lower(answer);
    if Contains(low, "нужно уточнить") {
      MarkerHasStem();
      ContainsTransitive(low, "нужно уточнить", "уточн");
    }
  }

  lemma MarkerHasStem()
    ensures Contains("нужно уточнить", "уточн")
  {
    var marker: string := "нужно уточнить";
    ContainsOccurs(marker, "уточн");
    assert marker[6..11] == "уточн";
    assert OccursAt(marker, "уточн", 6);
  }

  /** Letter case does not matter to the test. */
  lemma UncertaintyIgnoresCase(answer: string)
    ensures SignalsUncertainty(Lower(answer)) == SignalsUncertainty(answer)
  {
    LowerIdempotent(answer);
  }

  /** A reply of 200 characters or more is always taken as an answer. */
  lemma LongRepliesAreAnswers(answer: string)
    requires |answer| >= ShortReplyLimit
    ensures !SignalsUncertainty(answer)
  {
  }
}
