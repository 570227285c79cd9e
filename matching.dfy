/** The knowledge-base lookup of the responder: the two knowledge stores as
    they come out of the JSON loader, the iteration helpers that flatten them
    into entries, and the keyword match that turns a question into the list of
    relevant items (navigation items first, then rule items). */
module Matching {
  import opened Wrappers
  import opened Text

  // ---------------------------------------------------------------- stores

  /** One element of a navigation store: a JSON object with optional
      `name`, `keywords` and `hint` fields, or any other JSON value. */
  datatype RawNav =
    | NavObject(name: Option<string>, keywords: Option<seq<string>>, hint: Option<string>)
    | NavNonObject

  /** The loaded navigation file: an object mapping section names to entries
      (in file order), a list of entries, or any other JSON value. */
  datatype NavStore =
    | NavMapping(sections: seq<(string, RawNav)>)
    | NavList(items: seq<RawNav>)
    | NavOther

  /** One element of a rules store: a JSON object with optional `keywords`,
      `answer` and `response` fields, or any other JSON value. */
  datatype RawRule =
    | RuleObject(keywords: Option<seq<string>>, answer: Option<string>, response: Option<string>)
    | RuleNonObject

  /** The loaded rules file: an object whose `rules` field lists the rules
      (an absent field is the empty list), a list of rules, or any other
      JSON value. */
  datatype RuleStore =
    | RuleMapping(rules: seq<RawRule>)
    | RuleList(items: seq<RawRule>)
    | RuleOther

  /** A knowledge entry after iteration, tagged by the store it came from. */
  datatype Entry =
    | Nav(name: string, keywords: seq<string>, hint: string)
    | Rule(keywords: seq<string>, answer: Option<string>, response: Option<string>)

  /** A relevant item: `{"type": "navigation", "name", "hint"}` or
      `{"type": "rule", "answer"}`. */
  datatype Item = NavItem(name: string, hint: string) | RuleItem(answer: string)

  function NavStoreSize(store: NavStore): nat {
    match store
    case NavMapping(sections) => |sections|
    case NavList(items) => |items|
    case NavOther => 0
  }

  function RuleStoreSize(store: RuleStore): nat {
    |IterRules(store)|
  }

  // ------------------------------------------------------------- normalize

  /** `normalize`: lower-case, then strip white space at both ends. */
  function Normalize(text: string): string {
    Strip(Lower(text))
  }

  /** A normalized text is lower case and has no white space at either end. */
  lemma NormalizeIsNormal(text: string)
    ensures IsTrimmed(Normalize(text)) && IsLowered(Normalize(text))
  {
    LowerIsLowered(text);
    StripKeepsLowered(Lower(text));
  }

  lemma AllSpaceConcat(a: string, b: string)
    requires AllSpace(a) && AllSpace(b)
    ensures AllSpace(a + b)
  {
  }

  /** Lower-casing a padded text gives the lower-cased text's stripped core
      padded with white space. */
  lemma {:induction false} LowerOfPadded(a: string, y: string, b: string) returns (la: string, lb: string)
    requires AllSpace(a) && AllSpace(b)
    ensures AllSpace(la) && AllSpace(lb)
    ensures Lower(a + y + b) == la + Strip(Lower(y)) + lb
  {
    var a', b' := StripDecomposes(Lower(y));
    LowerConcat(a + y, b);
    LowerConcat(a, y);
    LowerOfSpace(a);
    LowerOfSpace(b);
    AllSpaceConcat(Lower(a), a');
    AllSpaceConcat(b', Lower(b));
    la, lb := Lower(a) + a', b' + Lower(b);
    var l0, l1, l2, z := Lower(a), Lower(y), Lower(b), Strip(Lower(y));
    assert Lower(a + y + b) == l0 + l1 + l2;
    assert l1 == a' + z + b';
    Regroup(l0, a', z, b', l2);
  }

  lemma Regroup(p: string, q: string, r: string, s: string, t: string)
    ensures p + (q + r + s) + t == (p + q) + r + (s + t)
  {
  }

  /** White space around a text does not change its normal form. */
  lemma NormalizeOfPadded(a: string, y: string, b: string)
    requires AllSpace(a) && AllSpace(b)
    ensures Normalize(a + y + b) == Normalize(y)
  {
    var la, lb := LowerOfPadded(a, y, b);
    StripOfPadded(la, Strip(Lower(y)), lb);
  }

  /** `normalize` yields the lower-cased text with the surrounding white space
      removed: for a text made of white space, a trimmed core and white space,
      it is the lower-cased core. */
  lemma NormalizeIsLoweredCore(a: string, x: string, b: string)
    requires AllSpace(a) && AllSpace(b) && IsTrimmed(x)
    ensures Normalize(a + x + b) == Lower(x)
  {
    NormalizeOfPadded(a, x, b);
    LowerOfTrimmed(x);
    StripOfTrimmed(Lower(x));
  }

  /** Normalizing twice is normalizing once. */
  lemma NormalizeIdempotent(text: string)
    ensures Normalize(Normalize(text)) == Normalize(text)
  {
    var r := Normalize(text);
    NormalizeIsNormal(text);
    LowerOfLowered(r);
    StripOfTrimmed(r);
  }

  /** Lower-casing or stripping a text before normalizing it changes nothing. */
  lemma NormalizeAbsorbs(text: string)
    ensures Normalize(Lower(text)) == Normalize(text)
    ensures Normalize(Strip(text)) == Normalize(text)
  {
    LowerIdempotent(text);
    var a, b := StripDecomposes(text);
    NormalizeOfPadded(a, Strip(text), b);
  }

  // ------------------------------------------------------------ iteration

  /** The entry a navigation object yields under the given name, with the
      defaults `[]` for keywords and `""` for the hint. */
  function NavEntry(name: string, raw: RawNav): Entry
    requires raw.NavObject?
  {
    Nav(name, raw.keywords.GetOr([]), raw.hint.GetOr(""))
  }

  /** The mapping shape: every value must be an object (`entry.get` raises
      on anything else); the section name is the mapping key. */
  function MappingEntries(sections: seq<(string, RawNav)>): (r: Result<seq<Entry>>)
    ensures r.Raised? <==> exists i :: 0 <= i < |sections| && sections[i].1.NavNonObject?
    ensures r.Ok? ==> |r.value| == |sections|
    ensures r.Ok? ==> forall i :: 0 <= i < |sections| ==> r.value[i] == NavEntry(sections[i].0, sections[i].1)
  {
    if sections == [] then Ok([])
    else
      var (name, raw) := sections[0];
      match MappingEntries(sections[1..])
      case Raised => Raised
      case Ok(rest) =>
        if raw.NavNonObject? then Raised
        else Ok([NavEntry(name, raw)] + rest)
  }

  /** The list shape: objects yield an entry named by their `name` field
      (default `""`); anything that is not an object is skipped. */
  function ListEntries(items: seq<RawNav>): (r: seq<Entry>)
    ensures |r| <= |items|
    ensures forall e :: e in r ==> e.Nav?
    ensures (forall i :: 0 <= i < |items| ==> items[i].NavObject?) ==>
      |r| == |items| && forall i :: 0 <= i < |items| ==> r[i] == NavEntry(items[i].name.GetOr(""), items[i])
  {
    if items == [] then []
    else
      var rest := ListEntries(items[1..]);
      if items[0].NavNonObject? then rest
      else [NavEntry(items[0].name.GetOr(""), items[0])] + rest
  }

  lemma {:induction false} ListEntriesConcat(xs: seq<RawNav>, ys: seq<RawNav>)
    ensures ListEntries(xs + ys) == ListEntries(xs) + ListEntries(ys)
  {
    if xs != [] {
      assert (xs + ys)[0] == xs[0];
      assert (xs + ys)[1..] == xs[1..] + ys;
      ListEntriesConcat(xs[1..], ys);
      var rest := ListEntries(xs[1..]) + ListEntries(ys);
      assert ListEntries(xs + ys) == if xs[0].NavNonObject? then rest else [NavEntry(xs[0].name.GetOr(""), xs[0])] + rest;
    } else {
      assert xs + ys == ys;
    }
  }

  /** A non-object in a list-shaped navigation store is skipped. */
  lemma ListSkipsNonObject(xs: seq<RawNav>, ys: seq<RawNav>)
    ensures ListEntries(xs + [NavNonObject] + ys) == ListEntries(xs + ys)
  {
    ListEntriesConcat(xs + [NavNonObject], ys);
    ListEntriesConcat(xs, [NavNonObject]);
    ListEntriesConcat(xs, ys);
    assert ListEntries([NavNonObject]) == [];
  }

  /** `_iter_navigation`: the entries of the navigation store, in store order. */
  function IterNavigation(store: NavStore): (r: Result<seq<Entry>>)
    ensures r.Raised? <==> store.NavMapping? && exists i :: 0 <= i < |store.sections| && store.sections[i].1.NavNonObject?
    ensures r.Ok? ==> |r.value| <= NavStoreSize(store)
    ensures r.Ok? ==> forall i :: 0 <= i < |r.value| ==> r.value[i].Nav?
  {
    match store
    case NavMapping(sections) => MappingEntries(sections)
    case NavList(items) => Ok(ListEntries(items))
    case NavOther => Ok([])
  }

  /** `_iter_rules`: the raw rule elements, in store order. */
  function IterRules(store: RuleStore): seq<RawRule> {
    match store
    case RuleMapping(rules) => rules
    case RuleList(items) => items
    case RuleOther => []
  }

  predicate AllObjects(raws: seq<RawRule>) {
    forall i :: 0 <= i < |raws| ==> raws[i].RuleObject?
  }

  /** The rule entries the match loop reads from rule objects, with `[]` as
      the default keyword list. */
  function RuleEntries(raws: seq<RawRule>): (r: seq<Entry>)
    requires AllObjects(raws)
    ensures |r| == |raws|
    ensures forall i :: 0 <= i < |raws| ==>
      r[i] == Rule(raws[i].keywords.GetOr([]), raws[i].answer, raws[i].response)
  {
    if raws == [] then []
    else
      var raw := raws[|raws| - 1];
      RuleEntries(raws[..|raws| - 1]) + [Rule(raw.keywords.GetOr([]), raw.answer, raw.response)]
  }

  // -------------------------------------------------------------- matching

  /** `kw` is non-empty and, normalized, is a substring of the normalized
      question `q`, or `q` is a substring of it. */
  predicate KeywordHits(q: string, kw: string) {
    kw != "" && (Contains(q, Normalize(kw)) || Contains(Normalize(kw), q))
  }

  /** Some keyword of the entry hits the question. */
  predicate Matches(q: string, keywords: seq<string>) {
    exists i :: 0 <= i < |keywords| && KeywordHits(q, keywords[i])
  }

  /** `entry.get("answer") or entry.get("response") or ""`. */
  function RuleText(answer: Option<string>, response: Option<string>): (r: string)
    ensures answer.Some? && answer.value != "" ==> r == answer.value
    ensures (answer.None? || answer.value == "") && response.Some? && response.value != "" ==> r == response.value
    ensures r == "" <==> (answer.None? || answer.value == "") && (response.None? || response.value == "")
  {
    if answer.Some? && answer.value != "" then answer.value
    else if response.Some? && response.value != "" then response.value
    else ""
  }

  /** The item a matching entry contributes. */
  function ItemOf(e: Entry): (it: Item)
    ensures e.Nav? <==> it.NavItem?
  {
    match e
    case Nav(name, _, hint) => NavItem(name, hint)
    case Rule(_, answer, response) => RuleItem(RuleText(answer, response))
  }

  /** The items of the matching entries, one per entry, in entry order. */
  function Hits(q: string, entries: seq<Entry>): (r: seq<Item>)
    ensures |r| <= |entries|
  {
    if entries == [] then []
    else
      var last := entries[|entries| - 1];
      Hits(q, entries[..|entries| - 1]) + (if Matches(q, last.keywords) then [ItemOf(last)] else [])
  }

  /** What `collect_relevant_knowledge` returns for a question, or `Raised`
      when a store element it reads with `.get` is not an object. */
  function RelevantKnowledge(question: string, nav: NavStore, rules: RuleStore): Result<seq<Item>> {
    match IterNavigation(nav)
    case Raised => Raised
    case Ok(navs) =>
      var raws := IterRules(rules);
      if !AllObjects(raws) then Raised
      else Ok(Hits(Normalize(question), navs + RuleEntries(raws)))
  }

  /** One step of the inner keyword loop: an empty keyword is skipped, any
      other is normalized and tested in both directions. */
  method CheckKeyword(q: string, kw: string) returns (hit: bool)
    ensures hit <==> KeywordHits(q, kw)
  {
    if kw == "" {
      return false;
    }
    var kwn := Normalize(kw);
    hit := Contains(q, kwn) || Contains(kwn, q);
  }

  /** The inner keyword loop: the first keyword that hits ends the search. */
  method AnyKeywordHits(q: string, keywords: seq<string>) returns (hit: bool)
    ensures hit <==> Matches(q, keywords)
  {
    hit := false;
    var k := 0;
    while k < |keywords|
      invariant 0 <= k <= |keywords|
      invariant forall m :: 0 <= m < k ==> !KeywordHits(q, keywords[m])
    {
      var h := CheckKeyword(q, keywords[k]);
      if h {
        hit := true;
        break;
      }
      k := k + 1;
    }
  }

  /** One loop of `collect_relevant_knowledge`: each entry whose keywords
      hit the question appends its item, and the search moves on to the
      next entry. */
  method MatchEntries(q: string, entries: seq<Entry>) returns (results: seq<Item>)
    ensures results == Hits(q, entries)
  {
    results := [];
    var i := 0;
    while i < |entries|
      invariant 0 <= i <= |entries|
      invariant results == Hits(q, entries[..i])
    {
      var entry := entries[i];
      var hit := AnyKeywordHits(q, entry.keywords);
      HitsSnoc(q, entries[..i], entry);
      if hit {
        results := results + [ItemOf(entry)];
      }
      assert entries[..i + 1] == entries[..i] + [entry];
      i := i + 1;
    }
    assert entries[..i] == entries;
  }

  /** `collect_relevant_knowledge`: one pass over the navigation entries and
      one over the rules, appending at most one item per entry. Reading a
      non-object rule with `.get` raises; since the raise discards every item
      found so far, the model checks the rules before the two passes. */
  method CollectRelevantKnowledge(userQuestion: string, nav: NavStore, rules: RuleStore)
    returns (r: Result<seq<Item>>)
    ensures r == RelevantKnowledge(userQuestion, nav, rules)
  {
    var q := Normalize(userQuestion);
    var iterated := IterNavigation(nav);
    if iterated.Raised? {
      return Raised;
    }
    var raws := IterRules(rules);
    if !AllObjects(raws) {
      return Raised;
    }
    var navs := iterated.value;
    var navHits := MatchEntries(q, navs);
    var ruleHits := MatchEntries(q, RuleEntries(raws));
    HitsConcat(q, navs, RuleEntries(raws));
    r := Ok(navHits + ruleHits);
  }

  // ------------------------------------------------------------- properties

  /** One more entry adds at most its own item at the end. */
  lemma HitsSnoc(q: string, entries: seq<Entry>, e: Entry)
    ensures Hits(q, entries + [e]) == Hits(q, entries) + (if Matches(q, e.keywords) then [ItemOf(e)] else [])
  {
    assert (entries + [e])[..|entries|] == entries;
  }

  lemma {:induction false} HitsConcat(q: string, a: seq<Entry>, b: seq<Entry>)
    ensures Hits(q, a + b) == Hits(q, a) + Hits(q, b)
  {
    if b != [] {
      assert (a + b)[..|a + b| - 1] == a + b[..|b| - 1];
      HitsConcat(q, a, b[..|b| - 1]);
    } else {
      assert a + b == a;
    }
  }

  /** A matching entry contributes its item, at the position given by the
      number of items the entries before it contribute. */
  lemma {:induction false} HitsComplete(q: string, entries: seq<Entry>, i: nat)
    requires i < |entries| && Matches(q, entries[i].keywords)
    ensures |Hits(q, entries[..i])| < |Hits(q, entries)|
    ensures Hits(q, entries)[|Hits(q, entries[..i])|] == ItemOf(entries[i])
  {
    var before, e, after := entries[..i], entries[i], entries[i + 1..];
    assert entries == before + [e] + after;
    HitsSnoc(q, before, e);
    HitsConcat(q, before + [e], after);
    var hb := Hits(q, before);
    assert Hits(q, entries) == hb + [ItemOf(e)] + Hits(q, after);
    assert (hb + [ItemOf(e)] + Hits(q, after))[|hb|] == ItemOf(e);
  }

  /** Every item comes from a matching entry. */
  lemma {:induction false} HitsSound(q: string, entries: seq<Entry>, k: nat)
    requires k < |Hits(q, entries)|
    ensures exists i :: 0 <= i < |entries| && Matches(q, entries[i].keywords) && Hits(q, entries)[k] == ItemOf(entries[i])
  {
    var init := entries[..|entries| - 1];
    if k < |Hits(q, init)| {
      HitsSound(q, init, k);
      var i :| 0 <= i < |init| && Matches(q, init[i].keywords) && Hits(q, init)[k] == ItemOf(init[i]);
      assert entries[i] == init[i];
    } else {
      assert Hits(q, entries)[k] == ItemOf(entries[|entries| - 1]);
    }
  }

  /** Entries that do not match contribute nothing. */
  lemma {:induction false} HitsNone(q: string, entries: seq<Entry>)
    requires forall i :: 0 <= i < |entries| ==> !Matches(q, entries[i].keywords)
    ensures Hits(q, entries) == []
  {
    if entries != [] {
      HitsNone(q, entries[..|entries| - 1]);
    }
  }

  /** The items keep the kind of the entries they come from. */
  lemma {:induction false} HitsKeepKind(q: string, entries: seq<Entry>)
    ensures (forall i :: 0 <= i < |entries| ==> entries[i].Nav?) ==>
      forall k :: 0 <= k < |Hits(q, entries)| ==> Hits(q, entries)[k].NavItem?
    ensures (forall i :: 0 <= i < |entries| ==> entries[i].Rule?) ==>
      forall k :: 0 <= k < |Hits(q, entries)| ==> Hits(q, entries)[k].RuleItem?
  {
    if entries != [] {
      HitsKeepKind(q, entries[..|entries| - 1]);
    }
  }

  /** Navigation items followed by rule items: no navigation item comes
      after a rule item. */
  lemma {:induction false} KindsInOrder(hn: seq<Item>, hr: seq<Item>)
    requires forall k :: 0 <= k < |hn| ==> hn[k].NavItem?
    requires forall k :: 0 <= k < |hr| ==> hr[k].RuleItem?
    ensures forall i, j :: 0 <= i < j < |hn + hr| && (hn + hr)[i].RuleItem? ==> (hn + hr)[j].RuleItem?
  {
    var r := hn + hr;
    forall i, j | 0 <= i < j < |r| && r[i].RuleItem? ensures r[j].RuleItem? {
      assert i >= |hn|;
      assert r[j] == hr[j - |hn|];
    }
  }

  /** At most one item per navigation element and per rule, and every
      navigation item comes before every rule item. */
  lemma {:induction false} RelevantKnowledgeShape(question: string, nav: NavStore, rules: RuleStore)
    requires RelevantKnowledge(question, nav, rules).Ok?
    ensures |RelevantKnowledge(question, nav, rules).value| <= NavStoreSize(nav) + RuleStoreSize(rules)
    ensures var r := RelevantKnowledge(question, nav, rules).value;
      forall i, j :: 0 <= i < j < |r| && r[i].RuleItem? ==> r[j].RuleItem?
  {
    var q := Normalize(question);
    var navs := IterNavigation(nav).value;
    var raws := IterRules(rules);
    var rs := RuleEntries(raws);
    assert RelevantKnowledge(question, nav, rules).value == Hits(q, navs + rs);
    assert forall i :: 0 <= i < |rs| ==> rs[i].Rule?;
    HitsConcat(q, navs, rs);
    HitsKeepKind(q, navs);
    HitsKeepKind(q, rs);
    KindsInOrder(Hits(q, navs), Hits(q, rs));
  }

  /** The store is read only when shaped as the loader promises: the lookup
      raises exactly for a non-object value in a mapping-shaped navigation
      store or a non-object rule. */
  lemma RelevantKnowledgeRaises(question: string, nav: NavStore, rules: RuleStore)
    ensures RelevantKnowledge(question, nav, rules).Raised? <==>
      (nav.NavMapping? && exists i :: 0 <= i < |nav.sections| && nav.sections[i].1.NavNonObject?)
      || exists j :: 0 <= j < |IterRules(rules)| && IterRules(rules)[j].RuleNonObject?
  {
  }

  /** Empty keywords never cause a match. */
  lemma EmptyKeywordsNeverMatch(q: string, keywords: seq<string>)
    requires forall i :: 0 <= i < |keywords| ==> keywords[i] == ""
    ensures !Matches(q, keywords)
  {
  }

  /** With an empty question every entry that has a non-empty keyword matches,
      since the empty string is a substring of every keyword. */
  lemma EmptyQueryMatches(keywords: seq<string>)
    ensures Matches("", keywords) <==> exists i :: 0 <= i < |keywords| && keywords[i] != ""
  {
    if i :| 0 <= i < |keywords| && keywords[i] != "" {
      ContainsEmpty(Normalize(keywords[i]));
      assert KeywordHits("", keywords[i]);
    }
  }

  /** A keyword made only of white space is not empty, normalizes to the
      empty string and therefore matches every question. */
  lemma BlankKeywordMatchesAll(q: string, keywords: seq<string>, i: nat)
    requires i < |keywords| && keywords[i] != "" && AllSpace(keywords[i])
    ensures Matches(q, keywords)
  {
    var kw := keywords[i];
    NormalizeOfPadded(kw, "", []);
    assert kw + "" + [] == kw;
    assert Normalize("") == "";
    ContainsEmpty(q);
    assert KeywordHits(q, kw);
  }

  /** The lookup ignores letter case and surrounding white space in the
      question. */
  lemma RelevantKnowledgeNormalizes(question: string, nav: NavStore, rules: RuleStore)
    ensures RelevantKnowledge(Lower(question), nav, rules) == RelevantKnowledge(question, nav, rules)
    ensures RelevantKnowledge(Strip(question), nav, rules) == RelevantKnowledge(question, nav, rules)
  {
    NormalizeAbsorbs(question);
  }
}
