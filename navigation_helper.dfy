/** `get_navigation_hint`: the hint of the first navigation section one of
    whose keywords, lower-cased, occurs in the lower-cased user text. */
module NavigationHelper {
  import opened Wrappers
  import opened Text

  /** A navigation section's value: its keywords and the hint to give. */
  datatype Section = Section(keywords: seq<string>, hint: string)

  /** The sections in the mapping's iteration order, each with its key. */
  type Navigation = seq<(string, Section)>

  /** Section `i` is one the search stops at. */
  predicate SectionHits(navigation: Navigation, text: string, i: nat)
    requires i < |navigation|
  {
    MentionsAny(text, navigation[i].1.keywords)
  }

  /** The search loop over an already lower-cased text. */
  function FirstHint(navigation: Navigation, text: string): (r: Option<string>)
    ensures r.None? <==> forall i :: 0 <= i < |navigation| ==> !MentionsAny(text, navigation[i].1.keywords)
  {
    if navigation == [] then None
    else if MentionsAny(text, navigation[0].1.keywords) then Some(navigation[0].1.hint)
    else
      var r := FirstHint(navigation[1..], text);
      assert forall i :: 1 <= i < |navigation| ==> navigation[i] == navigation[1..][i - 1];
      r
  }

  /** `get_navigation_hint(user_text)`. */
  function GetNavigationHint(navigation: Navigation, userText: string): Option<string> {
    FirstHint(navigation, Lower(userText))
  }

  /** A found hint is that of a hitting section with no hitting section
      before it. */
  lemma {:induction false} FoundHintIsFirstHit(navigation: Navigation, text: string) returns (i: nat)
    requires FirstHint(navigation, text).Some?
    ensures i < |navigation| && SectionHits(navigation, text, i)
    ensures FirstHint(navigation, text).value == navigation[i].1.hint
    ensures forall j :: 0 <= j < i ==> !SectionHits(navigation, text, j)
  {
    if MentionsAny(text, navigation[0].1.keywords) {
      i := 0;
    } else {
      var i' := FoundHintIsFirstHit(navigation[1..], text);
      i := i' + 1;
      forall j | 0 <= j < i ensures !SectionHits(navigation, text, j) {
        if j > 0 {
          assert navigation[j] == navigation[1..][j - 1];
          assert !SectionHits(navigation[1..], text, j - 1);
        }
      }
    }
  }

  /** Conversely, the first hitting section's hint is the one found. */
  lemma {:induction false} FirstHitIsFound(navigation: Navigation, text: string, i: nat)
    requires i < |navigation| && SectionHits(navigation, text, i)
    requires forall j :: 0 <= j < i ==> !SectionHits(navigation, text, j)
    ensures FirstHint(navigation, text) == Some(navigation[i].1.hint)
  {
    if i > 0 {
      assert !SectionHits(navigation, text, 0);
      forall j | 0 <= j < i - 1 ensures !SectionHits(navigation[1..], text, j) {
        assert navigation[1..][j] == navigation[j + 1];
        assert !SectionHits(navigation, text, j + 1);
      }
      FirstHitIsFound(navigation[1..], text, i - 1);
    }
  }

  /** Upper and lower case in the user text give the same hint. */
  lemma GetNavigationHintIgnoresCase(navigation: Navigation, userText: string)
    ensures GetNavigationHint(navigation, Lower(userText)) == GetNavigationHint(navigation, userText)
  {
    LowerIdempotent(userText);
  }

  /** A section with an empty keyword matches every text: the search never
      goes past it. */
  lemma EmptyKeywordStopsSearch(navigation: Navigation, userText: string, i: nat, k: nat)
    requires i < |navigation| && k < |navigation[i].1.keywords| && navigation[i].1.keywords[k] == ""
    ensures SectionHits(navigation, Lower(userText), i)
    ensures GetNavigationHint(navigation, userText).Some?
    ensures exists j :: 0 <= j <= i && GetNavigationHint(navigation, userText) == Some(navigation[j].1.hint)
    ensures i == 0 ==> GetNavigationHint(navigation, userText) == Some(navigation[0].1.hint)
  {
    ContainsEmpty(Lower(userText));
    assert Lower(navigation[i].1.keywords[k]) == "";
    assert SectionHits(navigation, Lower(userText), i);
    if i == 0 {
      FirstHitIsFound(navigation, Lower(userText), 0);
    }
    var j := FoundHintIsFirstHit(navigation, Lower(userText));
  }

  /** Sections after the first hit never influence the result. */
  lemma {:induction false} LaterSectionsIrrelevant(navigation: Navigation, more: Navigation, text: string)
    requires FirstHint(navigation, text).Some?
    ensures FirstHint(navigation + more, text) == FirstHint(navigation, text)
  {
    var i := FoundHintIsFirstHit(navigation, text);
    var all := navigation + more;
    forall j | 0 <= j < i ensures !SectionHits(all, text, j) {
      assert all[j] == navigation[j];
      assert !SectionHits(navigation, text, j);
    }
    assert all[i] == navigation[i];
    FirstHitIsFound(all, text, i);
  }
}
