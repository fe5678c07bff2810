/**
 * What the tag tests of the text passes (src/services/content.rs) mean, said of
 * the text of a tag and not of how it is searched: which open tags mark a reply,
 * which elements may be pruned, which attributes an image tag has.
 */
module TagReading {
  import opened Wrappers
  import opened Text
  import PruneEmpty
  import ReplyQuotes

  // ----- Searching ---------------------------------------------------------------------------

  /** The text holds `needle`, in any case. */
  ghost predicate Holds(s: string, needle: string) {
    exists a, t, b :: s == a + t + b && SameIgnoringCase(t, needle)
  }

  /** The search finds the first place where the needle stands, if there is one. */
  lemma {:induction false} FindsFirst(s: string, needle: string, k: nat)
    ensures
      var r := FindCi(s, needle, k);
      && (r.Some? ==> AtCi(s, r.value, needle))
      && forall j: nat | k <= j < (if r.Some? then r.value else |s| + 1) :: !AtCi(s, j, needle)
    decreases |s| - k
  {
    if k + |needle| <= |s| && !AtCi(s, k, needle) { FindsFirst(s, needle, k + 1); }
  }

  lemma FoundIff(s: string, needle: string)
    ensures FindCi(s, needle, 0).Some? <==> Holds(s, needle)
  {
    FindsFirst(s, needle, 0);
    var r := FindCi(s, needle, 0);
    hide FindCi, SameIgnoringCase, AtCi;
    if r.Some? {
      var i, n := r.value, |needle|;
      AtCiIff(s, i, needle);
      assert s == s[..i] + s[i..i + n] + s[i + n..];
    }
    forall a, t, b | s == a + t + b && SameIgnoringCase(t, needle) ensures r.Some? {
      SameLength(t, needle);
      AtCiIff(s, |a|, needle);
      assert s[|a|..|a| + |t|] == t;
      assert AtCi(s, |a|, needle);
    }
  }

  lemma SameLength(t: string, p: string)
    requires SameIgnoringCase(t, p)
    ensures |t| == |p|
  {
  }

  // ----- A match in a part of a text ------------------------------------------------------------

  lemma AtCiShift(s: string, i: nat, k: nat, p: string)
    requires i <= |s|
    ensures AtCi(s, i + k, p) <==> AtCi(s[i..], k, p)
  {
    AtCiIff(s, i + k, p);
    AtCiIff(s[i..], k, p);
    hide AtCi;
    if i + k + |p| <= |s| { assert s[i..][k..k + |p|] == s[i + k..i + k + |p|]; }
  }

  lemma MatchInFront(a: string, b: string, j: nat, p: string)
    requires j + |p| <= |a|
    ensures AtCi(a + b, j, p) <==> AtCi(a, j, p)
  {
    AtCiIff(a, j, p);
    AtCiIff(a + b, j, p);
    assert (a + b)[j..j + |p|] == a[j..j + |p|];
  }

  // ----- Reply quotes -------------------------------------------------------------------------

  /** A blockquote's open tag marks a reply exactly if it holds one of the four markers, in any case. */
  lemma IsReplyIff(tag: string)
    ensures ReplyQuotes.IsReply(tag) <==>
      || Holds(tag, "type=\"cite\"") || Holds(tag, "type='cite'") || Holds(tag, "type=cite") || Holds(tag, "_quote")
  {
    hide Holds, FindCi;
    FoundIff(tag, "type=\"cite\"");
    FoundIff(tag, "type='cite'");
    FoundIff(tag, "type=cite");
    FoundIff(tag, "_quote");
  }

  // ----- Prunable elements ----------------------------------------------------------------------

  /** The tag's name, up to a blank, a slash or the end, is `name` in any case. */
  ghost predicate IsNamed(tag: string, name: string) {
    exists n, rest :: tag == "<" + n + rest && SameIgnoringCase(n, name) && IsBoundary(rest, 0)
  }

  lemma StartsTagIff(tag: string, name: string)
    ensures StartsTag(tag, 0, "<" + name) <==> IsNamed(tag, name)
  {
    var p := "<" + name;
    hide AtCi, SameIgnoringCase;
    if StartsTag(tag, 0, p) {
      AtCiIff(tag, 0, p);
      NameWithin(tag, name);
    }
    if n, rest :| tag == "<" + n + rest && SameIgnoringCase(n, name) && IsBoundary(rest, 0) {
      NameInFront(n, name);
      assert tag[0..|p|] == "<" + n && tag[|p|..] == rest;
      AtCiIff(tag, 0, p);
      BoundaryShift(tag, |p|);
    }
  }

  lemma NameInFront(n: string, name: string)
    requires SameIgnoringCase(n, name)
    ensures |n| == |name| && SameIgnoringCase("<" + n, "<" + name)
  {
    assert ("<" + n)[1..] == n && ("<" + name)[1..] == name;
    SameFromFirst("<" + n, "<" + name);
  }

  lemma NameWithin(tag: string, name: string)
    requires |name| < |tag| && SameIgnoringCase(tag[0..1 + |name|], "<" + name) && IsBoundary(tag, 1 + |name|)
    ensures IsNamed(tag, name)
  {
    var t, rest := tag[0..1 + |name|], tag[1 + |name|..];
    assert ("<" + name)[1..] == name;
    SameFromFirst(t, "<" + name);
    BoundaryShift(tag, 1 + |name|);
    assert t[0] == '<';
    assert tag == "<" + t[1..] + rest;
  }

  lemma BoundaryShift(s: string, k: nat)
    requires k <= |s|
    ensures IsBoundary(s, k) <==> IsBoundary(s[k..], 0)
  {
  }

  lemma {:induction false} FirstNameIff(names: seq<string>, s: string)
    ensures PruneEmpty.FirstName(names, s, 0).Some? <==> exists n | n in names :: StartsTag(s, 0, "<" + n)
  {
    hide StartsTag;
    if names != [] {
      FirstNameIff(names[1..], s);
      assert names == [names[0]] + names[1..];
    }
  }

  lemma SlashIsSecond(s: string)
    ensures At(s, 0, "</") ==> s[1] == '/'
  {
    if At(s, 0, "</") { assert s[0..2][1] == s[1]; }
  }

  /** An open tag may be pruned with its element exactly if its name, in any case, is one of `names`. */
  lemma IsPrunableIff(names: seq<string>, open: string)
    requires PruneEmpty.IsOpenTag(open)
    ensures PruneEmpty.IsPrunable(names, open) <==> exists n | n in names :: IsNamed(open, n)
  {
    FirstNameIff(names, open);
    SlashIsSecond(open);
    hide IsNamed, StartsTag, At;
    forall n | n in names ensures StartsTag(open, 0, "<" + n) <==> IsNamed(open, n) {
      StartsTagIff(open, n);
    }
  }
}
