/**
 * The string primitives the text passes share. Text is a sequence of Unicode
 * scalar values, as `str::chars` yields them; every tag test is ASCII.
 */
module Text {
  import opened Wrappers

  function Lower(c: char): char {
    if 'A' <= c <= 'Z' then c - 'A' + 'a' else c
  }

  /** `char::is_whitespace`: the Unicode White_Space property. */
  predicate IsWhitespace(c: char) {
    || '\t' <= c <= '\r' || c == ' ' || c == '\U{85}' || c == '\U{A0}' || c == '\U{1680}'
    || '\U{2000}' <= c <= '\U{200A}' || c == '\U{2028}' || c == '\U{2029}' || c == '\U{202F}'
    || c == '\U{205F}' || c == '\U{3000}'
  }

  /** The four blanks the byte scanners test for. */
  predicate IsAsciiBlank(c: char) {
    c == ' ' || c == '\t' || c == '\n' || c == '\r'
  }

  /** `p` stands at index `k`. */
  predicate At(s: string, k: nat, p: string) {
    k + |p| <= |s| && s[k..k + |p|] == p
  }

  /** `p`, given in lower case, stands at index `k` in any ASCII case. */
  predicate AtCi(s: string, k: nat, p: string)
    ensures AtCi(s, k, p) ==> k + |p| <= |s|
    decreases |p|
  {
    if p == "" then k <= |s| else k < |s| && Lower(s[k]) == p[0] && AtCi(s, k + 1, p[1..])
  }

  /** A tag name ends here: at the end of the text, or before `>`, `/` or a blank. */
  predicate IsBoundary(s: string, k: nat) {
    k >= |s| || s[k] == '>' || s[k] == '/' || IsAsciiBlank(s[k])
  }

  /** `starts_tag`: `name`, with its leading `<`, is the complete tag name at `k`. */
  predicate StartsTag(s: string, k: nat, name: string) {
    AtCi(s, k, name) && IsBoundary(s, k + |name|)
  }

  /** The index of the first `c` at or after `k`, or the length. */
  function Find(s: string, c: char, k: nat): (r: nat)
    requires k <= |s|
    ensures k <= r <= |s|
    decreases |s| - k
  {
    if k == |s| || s[k] == c then k else Find(s, c, k + 1)
  }

  /** Just past the `>` that ends the tag at `k`, or the length. */
  function TagEnd(s: string, k: nat): (r: nat)
    requires k < |s|
    ensures k < r <= |s|
  {
    var g := Find(s, '>', k);
    if g < |s| then g + 1 else |s|
  }

  /** `find_ci`: the first index at or after `k` where `needle`, given in lower case, stands in any case. */
  function FindCi(s: string, needle: string, k: nat): (r: Option<nat>)
    ensures r.Some? ==> k <= r.value && r.value + |needle| <= |s|
    decreases |s| - k
  {
    if k + |needle| > |s| then None
    else if AtCi(s, k, needle) then Some(k)
    else FindCi(s, needle, k + 1)
  }

  const ENTITIES := ["&nbsp;", "&#160;", "&#xA0;", "&#xa0;"]

  /** `blank_unit_len`: one whitespace character or one no-break entity; 0 for none. */
  function BlankLen(s: string, k: nat): (n: nat)
    ensures k + n <= |s| || n == 0
  {
    if k >= |s| then 0
    else if IsWhitespace(s[k]) then 1
    else if At(s, k, ENTITIES[0]) || At(s, k, ENTITIES[1]) || At(s, k, ENTITIES[2]) || At(s, k, ENTITIES[3]) then 6
    else 0
  }

  /** `skip_blank_content` */
  function SkipBlank(s: string, k: nat): (r: nat)
    requires k <= |s|
    ensures k <= r <= |s|
    decreases |s| - k
  {
    if BlankLen(s, k) == 0 then k else SkipBlank(s, k + BlankLen(s, k))
  }

  function TrimEnd(s: string): (r: string)
    ensures |r| <= |s|
  {
    if s != "" && IsWhitespace(s[|s| - 1]) then TrimEnd(s[..|s| - 1]) else s
  }

  function TrimStart(s: string): (r: string)
    ensures |r| <= |s|
  {
    if s != "" && IsWhitespace(s[0]) then TrimStart(s[1..]) else s
  }

  function Trim(s: string): string {
    TrimStart(TrimEnd(s))
  }

  lemma {:induction false} TrimEndBlank(s: string, w: string)
    requires forall i | 0 <= i < |w| :: IsWhitespace(w[i])
    ensures TrimEnd(s + w) == TrimEnd(s)
    decreases |w|
  {
    if w == "" {
      assert s + w == s;
    } else {
      assert (s + w)[..|s + w| - 1] == s + w[..|w| - 1];
      TrimEndBlank(s, w[..|w| - 1]);
    }
  }

  predicate EndsWith(s: string, p: string) {
    |p| <= |s| && s[|s| - |p|..] == p
  }

  lemma Regroup<T>(a: seq<T>, b: seq<T>, c: seq<T>)
    ensures a + (b + c) == (a + b) + c
  {
  }

  // ----- A text inside a longer one -----------------------------------------------

  /** A complete tag: it ends at its only `>` and has no second `<`. */
  predicate IsTag(tag: string) {
    |tag| >= 2 && tag[0] == '<' && '<' !in tag[1..] && tag[|tag| - 1] == '>' && '>' !in tag[..|tag| - 1]
  }

  lemma {:induction false} AtSplit(s: string, i: nat, a: string, b: string)
    requires At(s, i, a + b)
    ensures At(s, i, a) && At(s, i + |a|, b)
  {
    var t := s[i..i + |a + b|];
    assert t == a + b;
    assert s[i..i + |a|] == t[..|a|] == a;
    assert s[i + |a|..i + |a| + |b|] == t[|a|..] == b;
  }

  lemma FirstAt(s: string, p: nat, t: string)
    requires At(s, p, t) && t != ""
    ensures p < |s| && s[p] == t[0]
  {
    assert s[p..p + |t|][0] == s[p];
  }

  lemma FirstTwoAt(s: string, p: nat, needle: string)
    requires |needle| >= 2 && AtCi(s, p, needle)
    ensures p + 1 < |s| && Lower(s[p]) == needle[0] && Lower(s[p + 1]) == needle[1]
  {
    assert AtCi(s, p + 1, needle[1..]);
  }

  lemma {:induction false} AtCiWithin(s: string, i: nat, t: string, k: nat, p: string)
    requires At(s, i, t) && k + |p| <= |t|
    ensures AtCi(s, i + k, p) == AtCi(t, k, p)
    decreases |p|
  {
    if p != "" {
      assert s[i..i + |t|][k] == s[i + k];
      AtCiWithin(s, i, t, k + 1, p[1..]);
    }
  }

  lemma BlankLenShift(s: string, i: nat)
    requires i <= |s|
    ensures BlankLen(s, i) == BlankLen(s[i..], 0)
  {
    forall e: nat | e < 4 ensures At(s, i, ENTITIES[e]) <==> At(s[i..], 0, ENTITIES[e]) {
      if i + |ENTITIES[e]| <= |s| {
        assert s[i..i + |ENTITIES[e]|] == s[i..][0..|ENTITIES[e]|];
      }
    }
  }

  lemma {:induction false} TagEndsAt(s: string, i: nat, tag: string, k: nat)
    requires At(s, i, tag) && IsTag(tag) && k < |tag|
    ensures Find(s, '>', i + k) == i + |tag| - 1
    decreases |tag| - k
  {
    assert s[i..i + |tag|][k] == s[i + k];
    if k < |tag| - 1 {
      assert tag[k] == tag[..|tag| - 1][k];
      TagEndsAt(s, i, tag, k + 1);
    }
  }

  /** A match holds only characters of the needle, up to case. */
  lemma {:induction false} MatchLacks(s: string, k: nat, p: string, c: char, x: nat)
    requires k <= x < k + |p| && c !in p && Lower(c) == c && AtCi(s, k, p)
    ensures x < |s| && s[x] != c
    decreases |p|
  {
    if k < x { MatchLacks(s, k + 1, p[1..], c, x); }
  }

  // ----- Ignoring case ---------------------------------------------------------------

  /** The same text in any case of its ASCII letters. */
  ghost predicate SameIgnoringCase(t: string, lower: string) {
    |t| == |lower| && forall i | 0 <= i < |t| :: Lower(t[i]) == lower[i]
  }

  /** A text stands at `k` in any case exactly if the part of its length is the same ignoring case. */
  lemma {:induction false} AtCiIff(s: string, k: nat, p: string)
    ensures AtCi(s, k, p) <==> k + |p| <= |s| && SameIgnoringCase(s[k..k + |p|], p)
    decreases |p|
  {
    if p != "" && k < |s| {
      AtCiIff(s, k + 1, p[1..]);
      if k + |p| <= |s| {
        var t := s[k..k + |p|];
        assert t[1..] == s[k + 1..k + 1 + |p[1..]|];
        SameFromFirst(t, p);
      }
    }
  }

  lemma SameFromFirst(t: string, p: string)
    requires t != "" && p != ""
    ensures SameIgnoringCase(t, p) <==> Lower(t[0]) == p[0] && SameIgnoringCase(t[1..], p[1..])
  {
    hide Lower;
    if Lower(t[0]) == p[0] && SameIgnoringCase(t[1..], p[1..]) {
      forall i | 0 <= i < |t| ensures Lower(t[i]) == p[i] {
        if i > 0 { assert t[1..][i - 1] == t[i] && p[1..][i - 1] == p[i]; }
      }
    }
  }
}
