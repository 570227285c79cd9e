/** The per-user session store of the responder: a map from user id to
    `{state, history, last_active}`, updated in place. Clock readings are
    passed in as `now`. */
module Sessions {

  /** One logged turn: `{"role", "content", "ts"}`. */
  datatype HistoryEntry = HistoryEntry(role: string, content: string, ts: int)

  /** A message in the chat-completion format: `{"role", "content"}`. */
  datatype ChatMessage = ChatMessage(role: string, content: string)

  datatype Session = Session(state: string, history: seq<HistoryEntry>, lastActive: int)

  const Idle: string := "idle"
  const AwaitingClarify: string := "awaiting_clarify"
  const AwaitingMore: string := "awaiting_more"

  /** The session `get` creates for a user it has not seen. */
  function NewSession(now: int): Session {
    Session(Idle, [], now)
  }

  /** The session `get` hands back: the stored one, else a new one. */
  function SessionOr(m: map<int, Session>, userId: int, now: int): Session {
    if userId in m then m[userId] else NewSession(now)
  }

  /** The store after `get`: a new session only for an absent user. */
  function WithSession(m: map<int, Session>, userId: int, now: int): (r: map<int, Session>)
    ensures r.Keys == m.Keys + {userId}
    ensures userId in m ==> r == m
    ensures forall u :: u in m ==> r[u] == m[u]
  {
    if userId in m then m else m[userId := NewSession(now)]
  }

  /** The store after `set_state`. */
  function WithState(m: map<int, Session>, userId: int, state: string, now: int): (r: map<int, Session>)
    ensures r.Keys == m.Keys + {userId}
    ensures r[userId].state == state && r[userId].lastActive == now
    ensures r[userId].history == SessionOr(m, userId, now).history
    ensures forall u :: u in m && u != userId ==> r[u] == m[u]
  {
    m[userId := SessionOr(m, userId, now).(state := state, lastActive := now)]
  }

  /** The store after `append_history`. */
  function WithEntry(m: map<int, Session>, userId: int, entry: HistoryEntry, now: int): (r: map<int, Session>)
    ensures r.Keys == m.Keys + {userId}
    ensures r[userId].history == SessionOr(m, userId, now).history + [entry]
    ensures r[userId].state == SessionOr(m, userId, now).state
    ensures r[userId].lastActive == SessionOr(m, userId, now).lastActive
    ensures forall u :: u in m && u != userId ==> r[u] == m[u]
  {
    var s := SessionOr(m, userId, now);
    m[userId := s.(history := s.history + [entry])]
  }

  /** The history in chat-completion format, as `get_messages` builds it. */
  function ToChatMessages(history: seq<HistoryEntry>): (r: seq<ChatMessage>)
    ensures |r| == |history|
    ensures forall i :: 0 <= i < |history| ==> r[i].role == history[i].role && r[i].content == history[i].content
  {
    if history == [] then []
    else [ChatMessage(history[0].role, history[0].content)] + ToChatMessages(history[1..])
  }

  /** The states `ask_ai` uses. */
  predicate IsKnownState(state: string) {
    state == Idle || state == AwaitingClarify || state == AwaitingMore
  }

  /** A history of question/answer pairs, as `ask_ai` appends them. */
  ghost predicate IsPaired(history: seq<HistoryEntry>) {
    |history| % 2 == 0 &&
    forall k :: 0 <= k < |history| ==> history[k].role == (if k % 2 == 0 then "user" else "assistant")
  }

  /** Every assistant entry directly follows a user entry. Unlike pairing,
      this also survives the message handler logging the question itself
      before `ask_ai` runs. */
  ghost predicate AnswersFollowQuestions(history: seq<HistoryEntry>) {
    forall k :: 0 <= k < |history| && history[k].role == "assistant" ==> k > 0 && history[k - 1].role == "user"
  }

  class SessionManager {
    var sessions: map<int, Session>

    /** Every session is in one of the states `ask_ai` uses. */
    ghost predicate KnownStates()
      reads this
    {
      forall u :: u in sessions ==> IsKnownState(sessions[u].state)
    }

    /** Every history is a sequence of question/answer pairs. */
    ghost predicate PairedHistories()
      reads this
    {
      forall u :: u in sessions ==> IsPaired(sessions[u].history)
    }

    /** Every history has each answer right after a question. */
    ghost predicate OrderedHistories()
      reads this
    {
      forall u :: u in sessions ==> AnswersFollowQuestions(sessions[u].history)
    }

    constructor ()
      ensures sessions == map[]
      ensures KnownStates() && PairedHistories() && OrderedHistories()
    {
      sessions := map[];
    }

    /** `get`: the user's session, created idle with an empty history only
        when the user has none; existing sessions are left alone. */
    method Get(userId: int, now: int) returns (s: Session)
      modifies this
      ensures sessions == WithSession(old(sessions), userId, now)
      ensures s == sessions[userId] == SessionOr(old(sessions), userId, now)
      ensures old(KnownStates()) ==> KnownStates()
      ensures old(PairedHistories()) ==> PairedHistories()
    {
      if userId !in sessions {
        sessions := sessions[userId := NewSession(now)];
      }
      s := sessions[userId];
    }

    /** `set_state`: only this user's `state` and `last_active` change. */
    method SetState(userId: int, state: string, now: int)
      modifies this
      ensures sessions == WithState(old(sessions), userId, state, now)
      ensures old(KnownStates()) && IsKnownState(state) ==> KnownStates()
      ensures old(PairedHistories()) ==> PairedHistories()
    {
      var s := Get(userId, now);
      sessions := sessions[userId := s.(state := state)];
      s := Get(userId, now);
      sessions := sessions[userId := s.(lastActive := now)];
    }

    /** `append_history`: only this user's history grows, by one entry at the
        end; the log file write is not modelled. */
    method AppendHistory(userId: int, role: string, content: string, now: int)
      modifies this
      ensures sessions == WithEntry(old(sessions), userId, HistoryEntry(role, content, now), now)
      ensures old(KnownStates()) ==> KnownStates()
    {
      var entry := HistoryEntry(role, content, now);
      var s := Get(userId, now);
      sessions := sessions[userId := s.(history := s.history + [entry])];
    }

    /** `get_messages`: the history as chat messages, same length and order,
        role and content kept. Like every accessor it goes through `get`. */
    method GetMessages(userId: int, now: int) returns (msgs: seq<ChatMessage>)
      modifies this
      ensures sessions == WithSession(old(sessions), userId, now)
      ensures |msgs| == |sessions[userId].history|
      ensures forall i :: 0 <= i < |msgs| ==>
        msgs[i].role == sessions[userId].history[i].role && msgs[i].content == sessions[userId].history[i].content
    {
      var s := Get(userId, now);
      msgs := ToChatMessages(s.history);
    }
  }

  /** Appending a question and then its answer keeps a history paired. */
  lemma PairedAfterTurn(history: seq<HistoryEntry>, question: HistoryEntry, answer: HistoryEntry)
    requires IsPaired(history)
    requires question.role == "user" && answer.role == "assistant"
    ensures IsPaired(history + [question] + [answer])
  {
    var h := history + [question] + [answer];
    forall k | 0 <= k < |h| ensures h[k].role == (if k % 2 == 0 then "user" else "assistant") {
      if k < |history| {
        assert h[k] == history[k];
      }
    }
  }

  /** Logging one more question keeps answers right after questions. */
  lemma QuestionKeepsOrder(history: seq<HistoryEntry>, question: HistoryEntry)
    requires AnswersFollowQuestions(history)
    requires question.role == "user"
    ensures AnswersFollowQuestions(history + [question])
  {
    var h := history + [question];
    forall k | 0 <= k < |h| && h[k].role == "assistant" ensures k > 0 && h[k - 1].role == "user" {
      assert h[k] == history[k];
      assert h[k - 1] == history[k - 1];
    }
  }

  /** Logging a question and then its answer keeps answers right after
      questions. */
  lemma TurnKeepsOrder(history: seq<HistoryEntry>, question: HistoryEntry, answer: HistoryEntry)
    requires AnswersFollowQuestions(history)
    requires question.role == "user" && answer.role == "assistant"
    ensures AnswersFollowQuestions(history + [question] + [answer])
  {
    QuestionKeepsOrder(history, question);
    var h := history + [question] + [answer];
    forall k | 0 <= k < |h| && h[k].role == "assistant" ensures k > 0 && h[k - 1].role == "user" {
      if k < |history| + 1 {
        assert h[k] == (history + [question])[k];
        assert h[k - 1] == (history + [question])[k - 1];
      }
    }
  }
}
