/** The Python string operations the bot relies on, on `string == seq<char>`
    (a Dafny `char` is a Unicode scalar value, as a Python `str` element is):
    `str.lower`, `str.strip`, the `in` substring test, slicing `s[:n]` and
    `sep.join(parts)`. */
module Text {

  /** Python's `str.isspace` for one character. */
  predicate IsSpace(c: char) {
    ('\U{0009}' <= c <= '\U{000D}') || ('\U{001C}' <= c <= '\U{0020}')
    || c == '\U{0085}' || c == '\U{00A0}' || c == '\U{1680}'
    || ('\U{2000}' <= c <= '\U{200A}') || c == '\U{2028}' || c == '\U{2029}'
    || c == '\U{202F}' || c == '\U{205F}' || c == '\U{3000}'
  }

  /** Upper-case letters of the alphabets the knowledge base is written in:
      Latin A..Z and the Cyrillic capitals U+0400..U+042F. */
  predicate IsUpper(c: char) {
    ('A' <= c <= 'Z') || ('\U{0400}' <= c <= '\U{042F}')
  }

  /** Python's `str.lower` on one character of those alphabets. */
  function LowerChar(c: char): (d: char)
    ensures !IsUpper(d)
    ensures !IsUpper(c) ==> d == c
    ensures IsSpace(d) <==> IsSpace(c)
  {
    if 'A' <= c <= 'Z' then (c as int + 32) as char
    else if '\U{0410}' <= c <= '\U{042F}' then (c as int + 32) as char
    else if '\U{0400}' <= c <= '\U{040F}' then (c as int + 80) as char
    else c
  }

  /** Every character is already lower case. */
  ghost predicate IsLowered(s: string) {
    forall i :: 0 <= i < |s| ==> LowerChar(s[i]) == s[i]
  }

  /** Python's `s.lower()`. */
  function Lower(s: string): (r: string)
    ensures |r| == |s|
  {
    if s == [] then [] else [LowerChar(s[0])] + Lower(s[1..])
  }

  /** Lower-casing works character by character. */
  lemma {:induction false} LowerAt(s: string, i: nat)
    requires i < |s|
    ensures Lower(s)[i] == LowerChar(s[i])
  {
    if i > 0 {
      LowerAt(s[1..], i - 1);
    }
  }

  /** The lower-cased text is lower case. */
  lemma LowerIsLowered(s: string)
    ensures IsLowered(Lower(s))
  {
    forall i | 0 <= i < |s| ensures LowerChar(Lower(s)[i]) == Lower(s)[i] {
      LowerAt(s, i);
    }
  }

  /** Lower-casing a lower-case text leaves it unchanged. */
  lemma {:induction false} LowerOfLowered(s: string)
    requires IsLowered(s)
    ensures Lower(s) == s
  {
    if s != [] {
      assert LowerChar(s[0]) == s[0];
      LowerOfLowered(s[1..]);
    }
  }

  /** Lower-casing twice is lower-casing once. */
  lemma LowerIdempotent(s: string)
    ensures Lower(Lower(s)) == Lower(s)
  {
    LowerIsLowered(s);
    LowerOfLowered(Lower(s));
  }

  /** Lower-casing distributes over concatenation. */
  lemma {:induction false} LowerConcat(a: string, b: string)
    ensures Lower(a + b) == Lower(a) + Lower(b)
  {
    if a != [] {
      assert (a + b)[0] == a[0];
      assert (a + b)[1..] == a[1..] + b;
      LowerConcat(a[1..], b);
    } else {
      assert a + b == b;
    }
  }

  /** Lower-casing keeps white space. */
  lemma LowerOfSpace(a: string)
    requires AllSpace(a)
    ensures AllSpace(Lower(a))
  {
    forall i | 0 <= i < |a| ensures IsSpace(Lower(a)[i]) {
      LowerAt(a, i);
    }
  }

  /** Lower-casing keeps a trimmed text trimmed. */
  lemma LowerOfTrimmed(x: string)
    requires IsTrimmed(x)
    ensures IsTrimmed(Lower(x))
  {
    if x != [] {
      LowerAt(x, 0);
      LowerAt(x, |x| - 1);
    }
  }

  ghost predicate AllSpace(s: string) {
    forall i :: 0 <= i < |s| ==> IsSpace(s[i])
  }

  /** No white space at either end. */
  ghost predicate IsTrimmed(s: string) {
    s == [] || (!IsSpace(s[0]) && !IsSpace(s[|s| - 1]))
  }

  /** Python's `s.lstrip()`. */
  function TrimStart(s: string): (r: string)
    ensures |r| <= |s|
    ensures r == [] || !IsSpace(r[0])
    ensures r == [] || r[|r| - 1] == s[|s| - 1]
  {
    if s != [] && IsSpace(s[0]) then TrimStart(s[1..]) else s
  }

  /** Python's `s.rstrip()`. */
  function TrimEnd(s: string): (r: string)
    ensures |r| <= |s|
    ensures r == [] || !IsSpace(r[|r| - 1])
    ensures r == [] || r[0] == s[0]
  {
    if s != [] && IsSpace(s[|s| - 1]) then TrimEnd(s[..|s| - 1]) else s
  }

  /** Python's `s.strip()`. */
  function Strip(s: string): (r: string)
    ensures IsTrimmed(r)
    ensures |r| <= |s|
  {
    TrimEnd(TrimStart(s))
  }

  /** `lstrip` removes a leading run of white space and nothing else. */
  lemma {:induction false} TrimStartSplits(s: string) returns (a: string)
    ensures AllSpace(a) && s == a + TrimStart(s)
  {
    if s != [] && IsSpace(s[0]) {
      var a' := TrimStartSplits(s[1..]);
      a := [s[0]] + a';
    } else {
      a := [];
    }
  }

  /** `rstrip` removes a trailing run of white space and nothing else. */
  lemma {:induction false} TrimEndSplits(t: string) returns (b: string)
    ensures AllSpace(b) && t == TrimEnd(t) + b
  {
    if t != [] && IsSpace(t[|t| - 1]) {
      var b' := TrimEndSplits(t[..|t| - 1]);
      b := b' + [t[|t| - 1]];
    } else {
      b := [];
    }
  }

  /** `Strip(s)` is `s` with a run of white space removed at each end. */
  lemma {:induction false} StripDecomposes(s: string) returns (a: string, b: string)
    ensures AllSpace(a) && AllSpace(b) && s == a + Strip(s) + b
  {
    var t := TrimStart(s);
    a := TrimStartSplits(s);
    b := TrimEndSplits(t);
    var r := Strip(s);
    assert r == TrimEnd(t);
    assert s == a + (r + b);
    assert a + (r + b) == a + r + b;
  }

  lemma {:induction false} TrimStartOfPadded(a: string, x: string)
    requires AllSpace(a)
    requires x == [] || !IsSpace(x[0])
    ensures TrimStart(a + x) == x
  {
    if a != [] {
      assert (a + x)[1..] == a[1..] + x;
      TrimStartOfPadded(a[1..], x);
    }
  }

  lemma {:induction false} TrimEndOfPadded(x: string, b: string)
    requires AllSpace(b)
    requires x == [] || !IsSpace(x[|x| - 1])
    ensures TrimEnd(x + b) == x
  {
    if b != [] {
      assert (x + b)[..|x + b| - 1] == x + b[..|b| - 1];
      TrimEndOfPadded(x, b[..|b| - 1]);
    }
  }

  /** The converse of StripDecomposes: surrounding a trimmed text with white
      space and stripping gives the text back. */
  lemma StripOfPadded(a: string, x: string, b: string)
    requires AllSpace(a) && AllSpace(b) && IsTrimmed(x)
    ensures Strip(a + x + b) == x
  {
    if x == [] {
      assert a + x + b == a + b;
      TrimStartOfPadded(a + b, []);
      assert TrimStart(a + b + []) == [];
      assert a + b + [] == a + b;
    } else {
      assert a + x + b == a + (x + b);
      TrimStartOfPadded(a, x + b);
      TrimEndOfPadded(x, b);
    }
  }

  /** Stripping a trimmed text changes nothing; in particular strip is idempotent. */
  lemma StripOfTrimmed(x: string)
    requires IsTrimmed(x)
    ensures Strip(x) == x
  {
    StripOfPadded([], x, []);
    assert [] + x + [] == x;
  }

  /** White space is untouched by lower-casing, so strip and lower commute. */
  lemma StripKeepsLowered(s: string)
    requires IsLowered(s)
    ensures IsLowered(Strip(s))
  {
    var a, b := StripDecomposes(s);
    var r := Strip(s);
    forall i | 0 <= i < |r| ensures LowerChar(r[i]) == r[i] {
      assert r[i] == s[|a| + i];
    }
  }

  /** `needle` occurs in `hay` starting at index `i`. */
  predicate OccursAt(hay: string, needle: string, i: nat) {
    i + |needle| <= |hay| && hay[i..i + |needle|] == needle
  }

  /** Python's `needle in hay` for two strings: `needle` is a prefix of
      `hay` or of one of its suffixes. */
  predicate Contains(hay: string, needle: string)
    decreases |hay|
  {
    needle <= hay || (hay != [] && Contains(hay[1..], needle))
  }

  /** `Contains` holds exactly when `needle` occurs at some index of `hay`. */
  lemma {:induction false} ContainsOccurs(hay: string, needle: string)
    ensures Contains(hay, needle) <==> exists i: nat :: OccursAt(hay, needle, i)
    decreases |hay|
  {
    if needle <= hay {
      assert OccursAt(hay, needle, 0);
    } else if hay != [] {
      ContainsOccurs(hay[1..], needle);
      if i: nat :| OccursAt(hay[1..], needle, i) {
        OccursShift(hay, needle, i);
      }
      if i: nat :| OccursAt(hay, needle, i) {
        assert i != 0;
        OccursShift(hay, needle, i - 1);
      }
    }
  }

  /** An occurrence in `hay[1..]` is one in `hay`, one index later. */
  lemma OccursShift(hay: string, needle: string, i: nat)
    requires hay != []
    ensures OccursAt(hay[1..], needle, i) <==> OccursAt(hay, needle, i + 1)
  {
    if i + 1 + |needle| <= |hay| {
      assert hay[1..][i..i + |needle|] == hay[i + 1..i + 1 + |needle|];
    }
  }

  /** The empty string occurs in every string (`"" in s` is true). */
  lemma ContainsEmpty(hay: string)
    ensures Contains(hay, "")
  {
  }

  /** Being a substring is transitive. */
  lemma ContainsTransitive(a: string, b: string, c: string)
    requires Contains(a, b) && Contains(b, c)
    ensures Contains(a, c)
  {
    ContainsOccurs(a, b);
    ContainsOccurs(b, c);
    ContainsOccurs(a, c);
    var i: nat :| OccursAt(a, b, i);
    var j: nat :| OccursAt(b, c, j);
    assert i + |b| <= |a| && a[i..i + |b|] == b;
    assert j + |c| <= |b| && b[j..j + |c|] == c;
    forall k | 0 <= k < |c| ensures a[i + j + k] == c[k] {
      assert c[k] == b[j + k];
      assert b[j + k] == a[i..i + |b|][j + k];
    }
    assert a[i + j..i + j + |c|] == c;
    assert OccursAt(a, c, i + j);
  }

  /** Python's `s[:n]` for `n >= 0`: the longest prefix of `s` of length at most `n`. */
  function Take(s: string, n: nat): (r: string)
    ensures r <= s
    ensures |r| <= n
    ensures |r| < n ==> r == s
  {
    if |s| <= n then s else s[..n]
  }

  /** Python's `sep.join(parts)`. */
  function Join(parts: seq<string>, sep: string): (r: string)
  {
    if parts == [] then ""
    else if |parts| == 1 then parts[0]
    else parts[0] + sep + Join(parts[1..], sep)
  }

  /** Joining one more part adds the separator and the part at the end. */
  lemma {:induction false} JoinSnoc(parts: seq<string>, p: string, sep: string)
    ensures Join(parts + [p], sep) == if parts == [] then p else Join(parts, sep) + sep + p
  {
    if |parts| >= 2 {
      assert (parts + [p])[1..] == parts[1..] + [p];
      JoinSnoc(parts[1..], p, sep);
    } else if |parts| == 1 {
      assert (parts + [p])[1..] == [p];
    }
  }

  function TotalLength(parts: seq<string>): nat {
    if parts == [] then 0 else |parts[0]| + TotalLength(parts[1..])
  }

  /** The joined text holds every part and one separator between neighbours. */
  lemma {:induction false} JoinLength(parts: seq<string>, sep: string)
    requires parts != []
    ensures |Join(parts, sep)| == TotalLength(parts) + |sep| * (|parts| - 1)
  {
    if |parts| >= 2 {
      JoinLength(parts[1..], sep);
    } else {
      assert parts[1..] == [];
    }
  }

  /** Joining non-empty parts gives the empty string only for no parts. */
  lemma {:induction false} JoinEmptyIff(parts: seq<string>, sep: string)
    requires forall i :: 0 <= i < |parts| ==> parts[i] != ""
    ensures Join(parts, sep) == "" <==> parts == []
  {
    if parts != [] {
      JoinLength(parts, sep);
      assert TotalLength(parts) >= |parts[0]| > 0;
    }
  }

  /** A string contains its own suffix. */
  lemma ContainsSuffix(a: string, b: string)
    ensures Contains(a + b, b)
  {
    ContainsOccurs(a + b, b);
    assert OccursAt(a + b, b, |a|);
  }

  /** A string contains each of the pieces it is made of. */
  lemma ContainsPrefixPart(a: string, b: string, c: string)
    ensures Contains(a + b + c, b)
  {
    ContainsOccurs(a + b + c, b);
    assert (a + b + c)[|a|..|a| + |b|] == b;
    assert OccursAt(a + b + c, b, |a|);
  }

  /** A joined string contains every part. */
  lemma {:induction false} JoinContainsPart(parts: seq<string>, sep: string, i: nat)
    requires i < |parts|
    ensures Contains(Join(parts, sep), parts[i])
  {
    if |parts| == 1 {
      assert Join(parts, sep) == parts[0];
    } else if i == 0 {
      assert parts[0] <= Join(parts, sep);
    } else {
      JoinContainsPart(parts[1..], sep, i - 1);
      ContainsSuffix(parts[0] + sep, Join(parts[1..], sep));
      ContainsTransitive(Join(parts, sep), Join(parts[1..], sep), parts[i]);
    }
  }

  /** `any(kw.lower() in text for kw in keywords)`, for a `text` that is
      already lower-cased. */
  predicate MentionsAny(text: string, keywords: seq<string>) {
    exists k :: 0 <= k < |keywords| && Contains(text, Lower(keywords[k]))
  }
}
