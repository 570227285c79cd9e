# Support-bot responder, modelled in Dafny

This project models the deterministic core of a Telegram support bot that
answers questions from a small knowledge base of site-navigation sections
and site rules:

- **Matching** (`matching.dfy`). `normalize` lower-cases and strips a text.
  The navigation store may be a mapping or a list, and so may the rule store.
  An entry matches when one of its non-empty keywords, normalized, is a
  substring of the normalized question, or the question is a substring of
  the keyword. Each entry contributes at most one item, and navigation items
  come before rule items. A store element that is not an object, where the
  code calls `.get` on it, raises; the model returns `Raised` there.
- **Answer texts** (`answers.dfy`). These cover `build_base_answer`, the
  options list shown when several items match, the three messages sent to
  the language model for a single item, and the test for a reply that asks
  for clarification.
- **Sessions** (`sessions.dfy`). `SessionManager` is a class over
  `map<int, Session>`. Its `get`, `set_state`, `append_history` and
  `get_messages` update the map in place.
- **Deciding** (`responder.dfy`). `ask_ai` strips the question and looks it
  up:
  - no match: it asks the user to clarify;
  - several matches: it lists them as options;
  - exactly one match: it consults the model. It then either reports the
    service error, asks the user to clarify, or logs the question and the
    answer and waits for more.

  `Reply`/`Respond` state the whole effect as a function. The method
  `AskAi` performs it step by step on a `SessionManager`.
- **First-match helpers** (`navigation_helper.dfy`, `rules_helper.dfy`).
  `get_navigation_hint` and `get_rule_answer` return the hint or answer of
  the first section or rule that has a keyword whose lower-cased form occurs
  in the lower-cased user text.

`text.dfy` holds the Python string operations the code relies on:
`str.lower`, `str.isspace`, `str.strip`, `in` on strings, `s[:n]` and
`sep.join`. `wrappers.dfy` holds `Option` (a possibly missing JSON field)
and `Result` (a value, or a raised exception).

Some behaviour the proofs make explicit:

- An empty or blank question matches every entry that has a non-empty
  keyword, because `"" in kwn` always holds (`Matching.EmptyQueryMatches`).
- A keyword made only of whitespace passes the `if not kw` guard, normalizes
  to `""`, and so matches every question (`Matching.BlankKeywordMatchesAll`).
- In the uncertainty test, the third marker "нужно уточнить" is redundant,
  because it contains "уточн" (`Answers.UncertaintyNeedsTwoMarkers`).
- `ask_ai` strips the question before the lookup. The lookup normalizes the
  text anyway, so only the prompt sees the stripped text, and the history
  records the original (`Responder.LookupIgnoresPadding`,
  `Responder.HistoryRecordsAcceptedTurns`).

## Model

| member | source | states |
|---|---|---|
| `Text.LowerChar` | ai_responder/responder.py:86 | a lower-cased character is never upper case; other characters are kept; whitespace stays whitespace |
| `Text.Lower` | ai_responder/responder.py:86 | lower-casing keeps the length |
| `Text.LowerAt` | ai_responder/responder.py:86 | lower-casing works character by character |
| `Text.LowerIdempotent` | ai_responder/responder.py:86 | lower-casing twice is the same as once |
| `Text.LowerConcat` | ai_responder/responder.py:86 | lower-casing distributes over concatenation |
| `Text.Strip` | ai_responder/responder.py:86 | the stripped text neither starts nor ends with whitespace and is no longer than the input |
| `Text.StripDecomposes` | ai_responder/responder.py:86 | strip removes only whitespace, and only at the two ends: `s == a + strip(s) + b` with `a`, `b` all whitespace |
| `Text.StripOfPadded` | ai_responder/responder.py:86 | stripping whitespace-padded trimmed text gives back that text |
| `Text.StripOfTrimmed` | ai_responder/responder.py:164 | strip leaves an already trimmed text unchanged |
| `Text.ContainsOccurs` | ai_responder/responder.py:117 | `needle in hay` holds exactly when the needle occurs at some index of hay |
| `Text.ContainsEmpty` | ai_responder/responder.py:117 | the empty string is in every string |
| `Text.ContainsTransitive` | ai_responder/responder.py:211 | a substring of a substring is a substring |
| `Text.Take` | ai_responder/responder.py:178 | `s[:n]` is a prefix of `s`, at most `n` long, and all of `s` when shorter |
| `Text.JoinSnoc` | ai_responder/responder.py:144 | joining one more part appends the separator and that part |
| `Text.JoinLength` | ai_responder/responder.py:144 | a join is as long as its parts plus one separator between each two |
| `Text.JoinEmptyIff` | ai_responder/responder.py:144 | a join of non-empty parts is empty exactly when there are no parts |
| `Text.JoinContainsPart` | ai_responder/responder.py:182 | every part occurs in the joined text |
| `Wrappers.Option.GetOr` | ai_responder/responder.py:92 | `dict.get(key, default)` is the value when present, else the default |
| `Matching.NormalizeIsNormal` | ai_responder/responder.py:85-86 | a normalized text is lower case and has no leading or trailing whitespace |
| `Matching.NormalizeOfPadded` | ai_responder/responder.py:85-86 | whitespace around a text does not change its normal form |
| `Matching.NormalizeIdempotent` | ai_responder/responder.py:85-86 | normalizing twice is the same as once |
| `Matching.NormalizeAbsorbs` | ai_responder/responder.py:85-86 | lower-casing or stripping before normalizing changes nothing |
| `Matching.MappingEntries` | ai_responder/responder.py:90-92 | a mapping store raises exactly when some value is not an object; otherwise one entry per key, in order, named by the key |
| `Matching.ListEntries` | ai_responder/responder.py:93-96 | a list store yields at most one navigation entry per element; when every element is an object, element i becomes the entry named by its `name` field (default `""`) with its keywords (default `[]`) and hint (default `""`) |
| `Matching.ListEntriesConcat` | ai_responder/responder.py:93-96 | the entries of a list store are read element by element, in order |
| `Matching.ListSkipsNonObject` | ai_responder/responder.py:95 | a list element that is not an object is skipped |
| `Matching.IterNavigation` | ai_responder/responder.py:89-96 | navigation raises only for a mapping with a non-object value; otherwise it yields navigation entries, at most one per store element |
| `Matching.RuleEntries` | ai_responder/responder.py:98-104 | every rule element yields exactly one rule entry, in order, carrying that rule's keywords (default `[]`), `answer` and `response` |
| `Matching.RuleText` | ai_responder/responder.py:128 | a rule's text is `answer` if non-empty, else `response` if non-empty, else `""` |
| `Matching.ItemOf` | ai_responder/responder.py:118 | navigation entries give navigation items and rules give rule items |
| `Matching.Hits` | ai_responder/responder.py:112-130 | the matching loops produce at most one item per entry |
| `Matching.CheckKeyword` | ai_responder/responder.py:114-117 | an empty keyword is skipped; any other hits when its normal form is in the question or the question is in it |
| `Matching.AnyKeywordHits` | ai_responder/responder.py:113-119 | the keyword loop stops with a hit exactly when some keyword of the entry hits |
| `Matching.MatchEntries` | ai_responder/responder.py:112-130 | the two matching loops return the matching entries' items, in entry order |
| `Matching.CollectRelevantKnowledge` | ai_responder/responder.py:107-132 | `collect_relevant_knowledge` returns the items of all matching navigation entries, then those of all matching rules, or raises on a non-object element |
| `Matching.HitsSnoc` | ai_responder/responder.py:122-130 | one more entry adds its item at the end exactly when it matches |
| `Matching.HitsConcat` | ai_responder/responder.py:112-130 | the navigation pass and the rule pass append independently |
| `Matching.HitsComplete` | ai_responder/responder.py:112-130 | every matching entry contributes its item, at the position given by the matches before it |
| `Matching.HitsSound` | ai_responder/responder.py:112-130 | every item comes from a matching entry |
| `Matching.HitsNone` | ai_responder/responder.py:112-130 | with no matching entry the result is empty |
| `Matching.HitsKeepKind` | ai_responder/responder.py:112-130 | navigation entries give only navigation items; rule entries give only rule items |
| `Matching.RelevantKnowledgeShape` | ai_responder/responder.py:112-130 | at most one item per store element, and no navigation item after a rule item |
| `Matching.RelevantKnowledgeRaises` | ai_responder/responder.py:89-104 | the lookup raises exactly when a navigation mapping or the rule store holds a non-object |
| `Matching.EmptyKeywordsNeverMatch` | ai_responder/responder.py:114-115 | an entry whose keywords are all empty never matches |
| `Matching.EmptyQueryMatches` | ai_responder/responder.py:117 | the empty query matches exactly the entries that have a non-empty keyword |
| `Matching.BlankKeywordMatchesAll` | ai_responder/responder.py:114-117 | a non-empty keyword made only of whitespace matches every question |
| `Matching.RelevantKnowledgeNormalizes` | ai_responder/responder.py:108 | the lookup gives the same result for a question, its lower-cased form and its stripped form |
| `Sessions.WithSession` | ai_responder/responder.py:30 | `setdefault` adds the user only when absent and changes no existing session |
| `Sessions.WithState` | ai_responder/responder.py:32-34 | only the user's state and last-active time change; the history is kept |
| `Sessions.WithEntry` | ai_responder/responder.py:36-39 | only the user's history changes, by one entry at the end |
| `Sessions.ToChatMessages` | ai_responder/responder.py:45 | the chat messages have the history's length and order, with role and content kept |
| `Sessions.SessionManager.constructor` | ai_responder/responder.py:26-27 | a new manager holds no sessions |
| `Sessions.SessionManager.Get` | ai_responder/responder.py:29-30 | `get` creates an idle session with an empty history only for an absent user, and returns the user's session |
| `Sessions.SessionManager.SetState` | ai_responder/responder.py:32-34 | `set_state` sets the user's state and last-active time and keeps the state invariants |
| `Sessions.SessionManager.AppendHistory` | ai_responder/responder.py:36-40 | `append_history` appends one entry to the user's history and nothing else |
| `Sessions.SessionManager.GetMessages` | ai_responder/responder.py:42-45 | `get_messages` returns the history in chat format, same length and order, role and content kept |
| `Sessions.QuestionKeepsOrder` | handlers/messages.py:16 | logging one more question keeps every answer right after a question |
| `Sessions.TurnKeepsOrder` | ai_responder/responder.py:216-217 | logging a question and then its answer keeps every answer right after a question |
| `Sessions.PairedAfterTurn` | ai_responder/responder.py:216-217 | appending a user turn and then an assistant turn keeps a history made of question/answer pairs |
| `Answers.Part` | ai_responder/responder.py:140-143 | a navigation part is never empty; a rule part is the rule's answer |
| `Answers.NonEmpty` | ai_responder/responder.py:144 | the filtered parts are all non-empty |
| `Answers.BuildBaseAnswer` | ai_responder/responder.py:135-144 | `build_base_answer` computes the base answer of its items |
| `Answers.BaseAnswerEmpty` | ai_responder/responder.py:135-144 | the base answer is empty exactly when every item is a rule with an empty answer |
| `Answers.BaseAnswerSnoc` | ai_responder/responder.py:139-144 | items keep their order: another item adds its part at the end, after `"\n\n"`, unless the part is empty |
| `Answers.OptionLabel` | ai_responder/responder.py:177-180 | a rule option is the first 60 characters of its answer; a navigation option is its name when non-empty, else the first 60 characters of its hint |
| `Answers.ListOptions` | ai_responder/responder.py:175-180 | the options loop gives one label per item, in item order |
| `Answers.OptionLabels` | ai_responder/responder.py:175-180 | one label per item, in item order |
| `Answers.Bullets` | ai_responder/responder.py:182 | each option becomes one `"• "` line |
| `Answers.OptionsListEveryItem` | ai_responder/responder.py:182-183 | every matched item appears in the options reply as a `"• "` line |
| `Answers.Prompt` | ai_responder/responder.py:197-201 | three messages are sent: the system prompt, the source as an assistant turn, the question as a user turn |
| `Answers.PromptCarriesSource` | ai_responder/responder.py:186-201 | the model sees the item's source text and the question verbatim |
| `Answers.UncertaintyNeedsTwoMarkers` | ai_responder/responder.py:210-211 | the uncertainty test is equivalent to: "уточн" or "не могу" in the lower-cased reply, and fewer than 200 characters |
| `Answers.UncertaintyIgnoresCase` | ai_responder/responder.py:210 | the uncertainty test ignores letter case |
| `Answers.LongRepliesAreAnswers` | ai_responder/responder.py:211 | a reply of 200 characters or more is never treated as uncertain |
| `Responder.AskAi` | ai_responder/responder.py:157-219 | `ask_ai` produces the reply, the messages sent to the model and the new session store that `Respond` gives; it keeps every session in a known state and every answer right after its question, and keeps a paired store paired |
| `Responder.AskAiSteps` | ai_responder/responder.py:164-219 | the steps of `ask_ai`, in the source's order, produce what `Respond` gives |
| `Responder.LookupIgnoresPadding` | ai_responder/responder.py:164-166 | stripping the question before the lookup does not change the lookup |
| `Responder.ModelOnlyForSingleMatch` | ai_responder/responder.py:168-201 | the model is called exactly when one item matches, and then it sees that item's source and the stripped question |
| `Responder.FailuresChangeNothing` | ai_responder/responder.py:204-207 | malformed data raises and changes nothing; a failed model call yields the service-error text and changes nothing |
| `Responder.NoSingleMatchAsksToClarify` | ai_responder/responder.py:168-183 | with zero or several matches the state becomes awaiting_clarify, the history is kept, and the reply is the not-found text or the options list |
| `Responder.HistoryRecordsAcceptedTurns` | ai_responder/responder.py:209-219 | the history grows only when the model's reply is accepted, and then by the original question and that reply; the user gets the reply and the state becomes awaiting_more |
| `Responder.UncertainReplyAsksToClarify` | ai_responder/responder.py:209-213 | with one match and a reply that signals uncertainty, the user gets the need-more-information text, the state becomes awaiting_clarify and the history is kept |
| `Responder.OnlyTheAskingUserChanges` | ai_responder/responder.py:164-219 | every other user's session is left untouched, and at most the asking user's is added |
| `Responder.ReplyKeepsKnownStates` | ai_responder/responder.py:168-219 | sessions stay in the states idle, awaiting_clarify and awaiting_more |
| `Responder.ReplyKeepsPairs` | ai_responder/responder.py:215-218 | `ask_ai` on its own appends only a user/assistant pair, so a store of paired histories stays paired; the bot's message handler logs each question before calling it, so in the running bot histories are not paired |
| `Responder.ReplyKeepsOrder` | ai_responder/responder.py:215-218 | every answer stays right after a question; this is the history property the running bot keeps, with the handler's own question logging |
| `NavigationHelper.FirstHint` | navigator/navigation_helper.py:13-16 | no hint is found exactly when no section has a keyword whose lower-cased form is in the text |
| `NavigationHelper.FoundHintIsFirstHit` | navigator/navigation_helper.py:13-15 | a found hint belongs to a matching section with no matching section before it |
| `NavigationHelper.FirstHitIsFound` | navigator/navigation_helper.py:13-15 | the first matching section's hint is the one returned |
| `NavigationHelper.GetNavigationHintIgnoresCase` | navigator/navigation_helper.py:12 | the result is the same for a text and its lower-cased form |
| `NavigationHelper.EmptyKeywordStopsSearch` | navigator/navigation_helper.py:14 | a section with an empty keyword matches every text, so a hint is always found, and it comes from that section or an earlier one |
| `NavigationHelper.LaterSectionsIrrelevant` | navigator/navigation_helper.py:13-15 | sections after the first match never change the result |
| `RulesHelper.FirstAnswer` | rule_checker/rules_helper.py:13-16 | no answer is found exactly when no rule has a keyword whose lower-cased form is in the text |
| `RulesHelper.FoundAnswerIsFirstHit` | rule_checker/rules_helper.py:13-15 | a found answer belongs to a matching rule with no matching rule before it |
| `RulesHelper.FirstHitIsFound` | rule_checker/rules_helper.py:13-15 | the first matching rule's answer is the one returned |
| `RulesHelper.GetRuleAnswerIgnoresCase` | rule_checker/rules_helper.py:12 | the result is the same for a text and its lower-cased form |
| `RulesHelper.EmptyKeywordStopsSearch` | rule_checker/rules_helper.py:14 | a rule with an empty keyword matches every text, so an answer is always found, and it comes from that rule or an earlier one |
| `RulesHelper.LaterRulesIrrelevant` | rule_checker/rules_helper.py:13-15 | rules after the first match never change the result |

## Left out

- The OpenAI client, `_sync_chat_call`, the thread pool and `run_in_executor` are a network call. The model's outcome (a reply text, or the message of the exception it raised) is a parameter of `AskAi`.
- Sessions.SessionManager.AppendHistory: the log write in `_write_log` is not modelled, so the model's append never fails. In the source, `data.append(entry)` and `path.write_text(...)` run outside the `try`, after the in-memory append, and either can raise: a log file holding a JSON object or string, or a failed write. A failure at the first `append_history` of a successful turn leaves a lone user entry; a failure at the second leaves the complete question/answer pair. Either way the state keeps its previous value instead of becoming `awaiting_more`, and the exception leaves `ask_ai`. `Responder.HistoryRecordsAcceptedTurns`, `Responder.ReplyKeepsPairs` and the `Respond` equation of `Responder.AskAi` hold only when the log write succeeds. Answer-after-question order (`Responder.ReplyKeepsOrder`) and known states hold in both failure cases too, since a lone user entry or a full pair keeps the order and the state is left as it was.
- File I/O is not modelled: `_write_log`, `_read_json`, `_read_system_prompt`, the log directory, and the `json.load` calls of the two helpers. The stores and the system prompt are parameters.
- `time.time()` is a parameter `now`, and one reading serves a whole call. The source reads the clock afresh in each `get`, `set_state` and `append_history`, so its timestamps within one call may differ. Timestamps are integers, not floats.
- `Text.Lower` models `str.lower` for ASCII and Cyrillic (U+0400–U+042F) letters only; other characters are kept. Unicode's other case mappings are not modelled.
- `normalize(None)` is not modelled; every caller passes a string.
- A model reply whose content is `None` is not modelled: the reply is a string.
- Non-string JSON values are not modelled: keywords, names, hints and answers are strings, and keyword lists are lists of strings. A navigation mapping's name is the key; a list item's name defaults to `""`.
- In the two helpers, a section or rule without `keywords`, or a rule without `answer`, raises `KeyError`. A navigation value that is not a dictionary raises too. None of this is modelled: every section and rule has both fields.
- `Matching.CollectRelevantKnowledge` checks that every rule element is an object before the navigation pass, rather than failing in the middle of the rule pass. The source raises at the first non-object rule element. The outcome is the same, because the loops have no other effect.
- `Sessions.SessionManager.Get` returns the session by value. In the source it returns the stored dictionary, and callers mutate it through that alias. The model writes the updated session back into the map instead.
- Responder.ReplyKeepsPairs: pairing is a property of `ask_ai` in isolation. The message handler appends the user's text to the history before every `ask_ai` call, so a successful turn logs the question twice. `Responder.ReplyKeepsOrder`, with `Sessions.QuestionKeepsOrder` for the handler's own append, is the invariant that holds in the running bot.
- Apart from the question logging of `handlers/messages.py` that `Sessions.QuestionKeepsOrder` covers, the handlers, `main.py`, `bot/config.py` and `prompts.py` are not part of this model. They are Telegram wiring, environment loading and a static prompt template.
