/** `ask_ai`: one user question answered from the knowledge base, with the
    language model consulted only when exactly one item matches. The model's
    reply (or the exception it raised) and the clock reading are inputs. */
module Responder {
  import opened Wrappers
  import opened Text
  import opened Matching
  import opened Sessions
  import opened Answers

  /** What one call produces: the text handed back to the user (or the
      exception raised on malformed data), the messages sent to the model
      (empty when it was not called), and the session store afterwards. */
  datatype Turn = Turn(reply: Result<string>, sent: seq<ChatMessage>, store: map<int, Session>)

  /** What `ask_ai` does once the lookup has produced `found`. */
  function Reply(m: map<int, Session>, userId: int, question: string, found: Result<seq<Item>>,
                 systemPrompt: string, model: ModelReply, now: int): Turn
  {
    match found
    case Raised => Turn(Raised, [], m)
    case Ok(knowledge) =>
      if knowledge == [] then
        Turn(Ok(NotFoundText), [], WithState(m, userId, AwaitingClarify, now))
      else if |knowledge| > 1 then
        Turn(Ok(OptionsText(OptionLabels(knowledge))), [], WithState(m, userId, AwaitingClarify, now))
      else
        var msgs := Prompt(systemPrompt, knowledge[0], Strip(question));
        match model
        case Failed(error) => Turn(Ok(ServiceErrorPrefix + error), msgs, m)
        case Replied(answer) =>
          if SignalsUncertainty(answer) then
            Turn(Ok(NeedMoreText), msgs, WithState(m, userId, AwaitingClarify, now))
          else
            var asked := WithEntry(m, userId, HistoryEntry("user", question, now), now);
            var answered := WithEntry(asked, userId, HistoryEntry("assistant", answer, now), now);
            Turn(Ok(answer), msgs, WithState(answered, userId, AwaitingMore, now))
  }

  /** The effect of `ask_ai` on a store `m`: the stripped question is looked
      up, then answered. */
  function Respond(m: map<int, Session>, userId: int, question: string, nav: NavStore, rules: RuleStore,
                   systemPrompt: string, model: ModelReply, now: int): Turn
  {
    Reply(m, userId, question, RelevantKnowledge(Strip(question), nav, rules), systemPrompt, model, now)
  }

  /** `ask_ai`: performs `Respond` on the session manager, which keeps
      every session in a known state and every answer after its question
      (and a paired store paired). */
  method AskAi(sessions: SessionManager, userId: int, question: string, nav: NavStore, rules: RuleStore,
               systemPrompt: string, model: ModelReply, now: int)
    returns (reply: Result<string>, sent: seq<ChatMessage>)
    modifies sessions
    ensures Turn(reply, sent, sessions.sessions) ==
      Respond(old(sessions.sessions), userId, question, nav, rules, systemPrompt, model, now)
    ensures old(sessions.KnownStates()) ==> sessions.KnownStates()
    ensures old(sessions.PairedHistories()) ==> sessions.PairedHistories()
    ensures old(sessions.OrderedHistories()) ==> sessions.OrderedHistories()
  {
    ghost var m := sessions.sessions;
    ghost var found := RelevantKnowledge(Strip(question), nav, rules);
    if sessions.KnownStates() {
      ReplyKeepsKnownStates(m, userId, question, found, systemPrompt, model, now);
    }
    if sessions.PairedHistories() {
      ReplyKeepsPairs(m, userId, question, found, systemPrompt, model, now);
    }
    if sessions.OrderedHistories() {
      ReplyKeepsOrder(m, userId, question, found, systemPrompt, model, now);
    }
    reply, sent := AskAiSteps(sessions, userId, question, nav, rules, systemPrompt, model, now);
  }

  /** The body of `ask_ai`, step by step on the session manager. */
  method AskAiSteps(sessions: SessionManager, userId: int, question: string, nav: NavStore, rules: RuleStore,
                    systemPrompt: string, model: ModelReply, now: int)
    returns (reply: Result<string>, sent: seq<ChatMessage>)
    modifies sessions
    ensures Turn(reply, sent, sessions.sessions) ==
      Respond(old(sessions.sessions), userId, question, nav, rules, systemPrompt, model, now)
  {
    var q := Strip(question);
    var knowledge := CollectRelevantKnowledge(q, nav, rules);
    if knowledge.Raised? {
      return Raised, [];
    }
    var items := knowledge.value;
    if items == [] {
      sessions.SetState(userId, AwaitingClarify, now);
      return Ok(NotFoundText), [];
    }
    if |items| > 1 {
      var options := ListOptions(items);
      sessions.SetState(userId, AwaitingClarify, now);
      assert options == OptionLabels(items);
      return Ok(OptionsText(options)), [];
    }
    sent := Prompt(systemPrompt, items[0], q);
    match model {
      case Failed(error) =>
        reply := Ok(ServiceErrorPrefix + error);
      case Replied(answer) =>
        if SignalsUncertainty(answer) {
          sessions.SetState(userId, AwaitingClarify, now);
          reply := Ok(NeedMoreText);
        } else {
          sessions.AppendHistory(userId, "user", question, now);
          sessions.AppendHistory(userId, "assistant", answer, now);
          sessions.SetState(userId, AwaitingMore, now);
          reply := Ok(answer);
        }
    }
  }

  // ----------------------------------------------------------------- lemmas

  /** Whether the model's reply is the one handed back and logged. */
  predicate Accepted(model: ModelReply) {
    model.Replied? && !SignalsUncertainty(model.text)
  }

  /** Stripping the question before the lookup changes nothing: the lookup
      normalizes it anyway. */
  lemma LookupIgnoresPadding(m: map<int, Session>, userId: int, question: string, nav: NavStore,
                             rules: RuleStore, systemPrompt: string, model: ModelReply, now: int)
    ensures Respond(m, userId, question, nav, rules, systemPrompt, model, now) ==
      Reply(m, userId, question, RelevantKnowledge(question, nav, rules), systemPrompt, model, now)
  {
    RelevantKnowledgeNormalizes(question, nav, rules);
  }

  /** The model is consulted exactly when one item matches, and then it sees
      that item's source and the stripped question. */
  lemma {:induction false} ModelOnlyForSingleMatch(m: map<int, Session>, userId: int, question: string,
      found: Result<seq<Item>>, systemPrompt: string, model: ModelReply, now: int)
    ensures var t := Reply(m, userId, question, found, systemPrompt, model, now);
      (t.sent != [] <==> found.Ok? && |found.value| == 1) &&
      (t.sent != [] ==>
        Contains(t.sent[1].content, SourceText(found.value[0])) &&
        Contains(t.sent[2].content, Strip(question)))
  {
    if found.Ok? && |found.value| == 1 {
      PromptCarriesSource(systemPrompt, found.value[0], Strip(question));
    }
  }

  /** Malformed knowledge data raises before anything changes; a failed
      model call changes nothing either. */
  lemma {:induction false} FailuresChangeNothing(m: map<int, Session>, userId: int, question: string,
      found: Result<seq<Item>>, systemPrompt: string, model: ModelReply, now: int)
    ensures var t := Reply(m, userId, question, found, systemPrompt, model, now);
      (t.reply.Raised? <==> found.Raised?) &&
      (t.reply.Raised? ==> t.sent == [] && t.store == m) &&
      (t.sent != [] && model.Failed? ==> t.reply == Ok(ServiceErrorPrefix + model.error) && t.store == m)
  {
  }

  /** Without exactly one match the user is asked to clarify: the fixed text
      when nothing matched, the list of options otherwise. */
  lemma {:induction false} NoSingleMatchAsksToClarify(m: map<int, Session>, userId: int, question: string,
      found: Result<seq<Item>>, systemPrompt: string, model: ModelReply, now: int)
    requires found.Ok? && |found.value| != 1
    ensures var t := Reply(m, userId, question, found, systemPrompt, model, now);
      t.store[userId].state == AwaitingClarify &&
      t.store[userId].history == SessionOr(m, userId, now).history &&
      (found.value == [] ==> t.reply == Ok(NotFoundText)) &&
      (found.value != [] ==> t.reply == Ok(OptionsText(OptionLabels(found.value))))
  {
  }

  /** The history grows exactly when the model's reply is accepted, and then
      by the original (unstripped) question and that reply; the reply is
      what the user gets and the session awaits more. */
  lemma {:induction false} HistoryRecordsAcceptedTurns(m: map<int, Session>, userId: int, question: string,
      found: Result<seq<Item>>, systemPrompt: string, model: ModelReply, now: int)
    ensures var t := Reply(m, userId, question, found, systemPrompt, model, now);
      var before := SessionOr(m, userId, now).history;
      var accepted := t.sent != [] && Accepted(model);
      (accepted ==>
        t.reply == Ok(model.text) && t.store[userId].state == AwaitingMore &&
        t.store[userId].history == before + [HistoryEntry("user", question, now), HistoryEntry("assistant", model.text, now)]) &&
      (!accepted ==> SessionOr(t.store, userId, now).history == before)
  {
  }

  /** A single match whose reply signals uncertainty asks the user to
      clarify with the fixed text; nothing is logged. */
  lemma {:induction false} UncertainReplyAsksToClarify(m: map<int, Session>, userId: int, question: string,
      found: Result<seq<Item>>, systemPrompt: string, model: ModelReply, now: int)
    requires found.Ok? && |found.value| == 1 && model.Replied? && SignalsUncertainty(model.text)
    ensures var t := Reply(m, userId, question, found, systemPrompt, model, now);
      t.reply == Ok(NeedMoreText) &&
      t.store[userId].state == AwaitingClarify &&
      t.store[userId].history == SessionOr(m, userId, now).history
  {
  }

  /** The store keeps every other user's session untouched and gains at
      most the asking user's. */
  lemma {:induction false} OnlyTheAskingUserChanges(m: map<int, Session>, userId: int, question: string,
      found: Result<seq<Item>>, systemPrompt: string, model: ModelReply, now: int)
    ensures var t := Reply(m, userId, question, found, systemPrompt, model, now);
      t.store.Keys <= m.Keys + {userId} && m.Keys <= t.store.Keys &&
      forall u :: u in m && u != userId ==> t.store[u] == m[u]
  {
  }

  /** Sessions stay in the states `ask_ai` uses. */
  lemma {:induction false} ReplyKeepsKnownStates(m: map<int, Session>, userId: int, question: string,
      found: Result<seq<Item>>, systemPrompt: string, model: ModelReply, now: int)
    requires forall u :: u in m ==> IsKnownState(m[u].state)
    ensures var t := Reply(m, userId, question, found, systemPrompt, model, now);
      forall u :: u in t.store ==> IsKnownState(t.store[u].state)
  {
  }

  /** Histories stay sequences of question/answer pairs. */
  lemma {:induction false} ReplyKeepsPairs(m: map<int, Session>, userId: int, question: string,
      found: Result<seq<Item>>, systemPrompt: string, model: ModelReply, now: int)
    requires forall u :: u in m ==> IsPaired(m[u].history)
    ensures var t := Reply(m, userId, question, found, systemPrompt, model, now);
      forall u :: u in t.store ==> IsPaired(t.store[u].history)
  {
    var t := Reply(m, userId, question, found, systemPrompt, model, now);
    var before := SessionOr(m, userId, now).history;
    assert IsPaired(before);
    if t.sent != [] && Accepted(model) {
      PairedAfterTurn(before, HistoryEntry("user", question, now), HistoryEntry("assistant", model.text, now));
      HistoryRecordsAcceptedTurns(m, userId, question, found, systemPrompt, model, now);
      assert before + [HistoryEntry("user", question, now)] + [HistoryEntry("assistant", model.text, now)]
          == before + [HistoryEntry("user", question, now), HistoryEntry("assistant", model.text, now)];
    }
  }

  /** Every answer stays right after a question. This holds in the running
      bot, whose message handler logs each question before calling
      `ask_ai`, so that histories there are not paired. */
  lemma {:induction false} ReplyKeepsOrder(m: map<int, Session>, userId: int, question: string,
      found: Result<seq<Item>>, systemPrompt: string, model: ModelReply, now: int)
    requires forall u :: u in m ==> AnswersFollowQuestions(m[u].history)
    ensures var t := Reply(m, userId, question, found, systemPrompt, model, now);
      forall u :: u in t.store ==> AnswersFollowQuestions(t.store[u].history)
  {
    var t := Reply(m, userId, question, found, systemPrompt, model, now);
    var before := SessionOr(m, userId, now).history;
    assert AnswersFollowQuestions(before);
    if t.sent != [] && Accepted(model) {
      TurnKeepsOrder(before, HistoryEntry("user", question, now), HistoryEntry("assistant", model.text, now));
      HistoryRecordsAcceptedTurns(m, userId, question, found, systemPrompt, model, now);
      assert before + [HistoryEntry("user", question, now)] + [HistoryEntry("assistant", model.text, now)]
          == before + [HistoryEntry("user", question, now), HistoryEntry("assistant", model.text, now)];
    }
  }
}
