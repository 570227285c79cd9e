/** `get_rule_answer`: the answer of the first rule one of whose keywords,
    lower-cased, occurs in the lower-cased user text. */
module RulesHelper {
  import opened Wrappers
  import opened Text

  /** A rule of the list: its keywords and its answer. */
  datatype Rule = Rule(keywords: seq<string>, answer: string)

  /** Rule `i` is one the search stops at. */
  predicate RuleHits(rules: seq<Rule>, text: string, i: nat)
    requires i < |rules|
  {
    MentionsAny(text, rules[i].keywords)
  }

  /** The search loop over an already lower-cased text. */
  function FirstAnswer(rules: seq<Rule>, text: string): (r: Option<string>)
    ensures r.None? <==> forall i :: 0 <= i < |rules| ==> !MentionsAny(text, rules[i].keywords)
  {
    if rules == [] then None
    else if MentionsAny(text, rules[0].keywords) then Some(rules[0].answer)
    else
      var r := FirstAnswer(rules[1..], text);
      assert forall i :: 1 <= i < |rules| ==> rules[i] == rules[1..][i - 1];
      r
  }

  /** `get_rule_answer(user_text)`. */
  function GetRuleAnswer(rules: seq<Rule>, userText: string): Option<string> {
    FirstAnswer(rules, Lower(userText))
  }

  /** A found answer is that of a hitting rule with no hitting rule before
      it. */
  lemma {:induction false} FoundAnswerIsFirstHit(rules: seq<Rule>, text: string) returns (i: nat)
    requires FirstAnswer(rules, text).Some?
    ensures i < |rules| && RuleHits(rules, text, i)
    ensures FirstAnswer(rules, text).value == rules[i].answer
    ensures forall j :: 0 <= j < i ==> !RuleHits(rules, text, j)
  {
    if MentionsAny(text, rules[0].keywords) {
      i := 0;
    } else {
      var i' := FoundAnswerIsFirstHit(rules[1..], text);
      i := i' + 1;
      forall j | 0 <= j < i ensures !RuleHits(rules, text, j) {
        if j > 0 {
          assert rules[j] == rules[1..][j - 1];
          assert !RuleHits(rules[1..], text, j - 1);
        }
      }
    }
  }

  /** Conversely, the first hitting rule's answer is the one found. */
  lemma {:induction false} FirstHitIsFound(rules: seq<Rule>, text: string, i: nat)
    requires i < |rules| && RuleHits(rules, text, i)
    requires forall j :: 0 <= j < i ==> !RuleHits(rules, text, j)
    ensures FirstAnswer(rules, text) == Some(rules[i].answer)
  {
    if i > 0 {
      assert !RuleHits(rules, text, 0);
      forall j | 0 <= j < i - 1 ensures !RuleHits(rules[1..], text, j) {
        assert rules[1..][j] == rules[j + 1];
        assert !RuleHits(rules, text, j + 1);
      }
      FirstHitIsFound(rules[1..], text, i - 1);
    }
  }

  /** Upper and lower case in the user text give the same answer. */
  lemma GetRuleAnswerIgnoresCase(rules: seq<Rule>, userText: string)
    ensures GetRuleAnswer(rules, Lower(userText)) == GetRuleAnswer(rules, userText)
  {
    LowerIdempotent(userText);
  }

  /** A rule with an empty keyword matches every text: the search never
      goes past it. */
  lemma EmptyKeywordStopsSearch(rules: seq<Rule>, userText: string, i: nat, k: nat)
    requires i < |rules| && k < |rules[i].keywords| && rules[i].keywords[k] == ""
    ensures RuleHits(rules, Lower(userText), i)
    ensures GetRuleAnswer(rules, userText).Some?
    ensures exists j :: 0 <= j <= i && GetRuleAnswer(rules, userText) == Some(rules[j].answer)
    ensures i == 0 ==> GetRuleAnswer(rules, userText) == Some(rules[0].answer)
  {
    ContainsEmpty(Lower(userText));
    assert Lower(rules[i].keywords[k]) == "";
    assert RuleHits(rules, Lower(userText), i);
    if i == 0 {
      FirstHitIsFound(rules, Lower(userText), 0);
    }
    var j := FoundAnswerIsFirstHit(rules, Lower(userText));
  }

  /** Rules after the first hit never influence the result. */
  lemma {:induction false} LaterRulesIrrelevant(rules: seq<Rule>, more: seq<Rule>, text: string)
    requires FirstAnswer(rules, text).Some?
    ensures FirstAnswer(rules + more, text) == FirstAnswer(rules, text)
  {
    var i := FoundAnswerIsFirstHit(rules, text);
    var all := rules + more;
    forall j | 0 <= j < i ensures !RuleHits(all, text, j) {
      assert all[j] == rules[j];
      assert !RuleHits(rules, text, j);
    }
    assert all[i] == rules[i];
    FirstHitIsFound(all, text, i);
  }
}
