/**
 * Image tags as they are written, and what the tag reader of
 * src/services/content.rs makes of them: attribute values come back as they were
 * put in, and an image is decoration by its size or its url.
 */
module ImageTags {
  import opened Wrappers
  import opened Text
  import opened TagReading
  import opened ImageMarkers

  /** A character an attribute name may stand behind. */
  predicate IsSeparator(c: char) {
    IsAsciiBlank(c) || c == '"' || c == '\'' || c == '/'
  }

  ghost predicate NoSeparator(name: string) {
    name != "" && forall i | 0 <= i < |name| :: !IsSeparator(name[i])
  }

  ghost predicate Spaces(b: string, lines: bool) {
    forall i | 0 <= i < |b| :: b[i] == ' ' || b[i] == '\t' || (lines && (b[i] == '\n' || b[i] == '\r'))
  }

  /** Blanks and then `=`, from `k` on. */
  ghost predicate EqualsAt(s: string, k: nat, e: nat) {
    k <= e < |s| && s[e] == '=' && Spaces(s[k..e], false)
  }

  ghost predicate EqualsFollows(s: string, k: nat) {
    exists e: nat :: EqualsAt(s, k, e)
  }

  /** At `p` an attribute `name` is given a value: the name stands there in any case, on its own, before `=`. */
  ghost predicate Assigns(s: string, p: nat, name: string) {
    AtCi(s, p, name) && (p == 0 || IsSeparator(s[p - 1])) && EqualsFollows(s, p + |name|)
  }

  ghost predicate Assigned(s: string, name: string) {
    exists p: nat :: Assigns(s, p, name)
  }

  // ----- Where a name stands ---------------------------------------------------------------------

  lemma NeedleAcross(s: string, j: nat, p: string, x: nat)
    requires AtCi(s, j, p) && j <= x < j + |p|
    ensures x < |s| && !(IsSeparator(s[x]) && s[x] !in p)
  {
    if x < |s| && s[x] !in p && IsSeparator(s[x]) {
      MatchLacks(s, j, p, s[x], x);
    }
  }

  lemma SeparatorNotIn(name: string, c: char)
    requires NoSeparator(name) && IsSeparator(c)
    ensures c !in name
  {
  }

  /** A name that does not stand in front starts in no longer text there, with a separator at the seam. */
  lemma MatchInFrontOrAcross(a: string, b: string, j: nat, name: string)
    requires NoSeparator(name) && j < |a| && !AtCi(a, j, name)
    requires IsSeparator(a[|a| - 1]) || (b != "" && IsSeparator(b[0]))
    ensures !AtCi(a + b, j, name)
  {
    hide AtCi;
    if j + |name| <= |a| {
      MatchInFront(a, b, j, name);
    } else if AtCi(a + b, j, name) {
      var x := if IsSeparator(a[|a| - 1]) then |a| - 1 else |a|;
      SeparatorNotIn(name, (a + b)[x]);
      NeedleAcross(a + b, j, name, x);
    }
  }

  lemma {:induction false} MatchHasLetter(s: string, k: nat, p: string, c: char)
    requires AtCi(s, k, p) && c in p
    ensures exists i :: 0 <= i < |s| && Lower(s[i]) == c
    decreases |p|
  {
    if p[0] == c {
      assert Lower(s[k]) == c;
    } else {
      MatchHasLetter(s, k + 1, p[1..], c);
    }
  }

  /** A text without one of the name's letters does not hold the name. */
  lemma NowhereWithout(s: string, name: string, c: char)
    requires c in name && forall i | 0 <= i < |s| :: Lower(s[i]) != c
    ensures FindCi(s, name, 0).None?
  {
    FindsFirst(s, name, 0);
    hide AtCi, FindCi;
    forall k: nat ensures !AtCi(s, k, name) {
      if AtCi(s, k, name) { MatchHasLetter(s, k, name, c); }
    }
  }

  // ----- One attribute ------------------------------------------------------------------------------

  lemma {:induction false} SkipsSpaces(s: string, k: nat, e: nat, lines: bool)
    requires k <= e < |s| && Spaces(s[k..e], lines) && !IsAsciiBlank(s[e])
    ensures SkipBlanks(s, k, lines) == e
    decreases e - k
  {
    if k < e {
      assert s[k..e][0] == s[k] && s[k..e][1..] == s[k + 1..e];
      SkipsSpaces(s, k + 1, e, lines);
    }
  }

  lemma {:induction false} FindsQuote(s: string, q: char, k: nat, e: nat)
    requires k <= e < |s| && q !in s[k..e] && s[e] == q
    ensures Find(s, q, k) == e
    decreases e - k
  {
    if k < e {
      assert s[k..e][0] == s[k] && s[k..e][1..] == s[k + 1..e];
      FindsQuote(s, q, k + 1, e);
    }
  }

  lemma {:induction false} SkipsOnlySpaces(s: string, k: nat)
    requires k <= |s|
    ensures Spaces(s[k..SkipBlanks(s, k, false)], false)
    decreases |s| - k
  {
    var e := SkipBlanks(s, k, false);
    if k < e {
      SkipsOnlySpaces(s, k + 1);
      assert s[k..e] == [s[k]] + s[k + 1..e];
    }
  }

  /** A place that assigns nothing is passed over. */
  lemma PassesOver(s: string, name: string, search: nat, r: nat)
    requires name != "" && search <= |s| && FindCi(s, name, search) == Some(r) && !Assigns(s, r, name)
    ensures r + |name| <= |s| && TagAttr(s, name, search) == TagAttr(s, name, r + |name|)
  {
    FindsFirst(s, name, search);
    var k := r + |name|;
    SkipsOnlySpaces(s, k);
    hide FindCi, AtCi, SkipBlanks, Spaces;
    var e := SkipBlanks(s, k, false);
    assert e < |s| && s[e] == '=' ==> EqualsAt(s, k, e);
  }

  /** What is read is read at the first place that assigns. */
  lemma {:induction false} FirstAssignment(s: string, name: string, search: nat, p: nat)
    requires NoSeparator(name) && search <= p < |s| && AtCi(s, p, name) && (p > search ==> IsSeparator(s[p - 1]))
    requires forall j | search <= j < p :: !Assigns(s, j, name)
    ensures TagAttr(s, name, search) == TagAttr(s, name, p)
    decreases p - search
  {
    FindsFirst(s, name, search);
    hide TagAttr, Assigns, AtCi, FindCi, IsSeparator;
    var r := FindCi(s, name, search);
    assert r.Some? && r.value <= p;
    if r.value < p {
      hide NoSeparator;
      PassesOver(s, name, search, r.value);
      NoSeparatorInside(s, name, r.value, p - 1);
      FirstAssignment(s, name, r.value + |name|, p);
    } else {
      SameFound(s, name, search, p);
    }
  }

  lemma NoSeparatorInside(s: string, name: string, r: nat, x: nat)
    requires NoSeparator(name) && AtCi(s, r, name) && r <= x < |s| && IsSeparator(s[x])
    ensures r + |name| <= x
  {
    hide AtCi;
    if x < r + |name| {
      SeparatorNotIn(name, s[x]);
      NeedleAcross(s, r, name, x);
    }
  }

  lemma SameFound(s: string, name: string, search: nat, p: nat)
    requires name != "" && search <= p <= |s| && FindCi(s, name, search) == Some(p) && AtCi(s, p, name)
    ensures TagAttr(s, name, search) == TagAttr(s, name, p)
  {
    hide SkipBlanks, Find, FindUnquotedEnd, AtCi;
    assert FindCi(s, name, p) == Some(p);
    hide FindCi;
  }

  /** A tag that assigns nothing to the name has no such attribute. */
  lemma {:induction false} NothingAssigned(s: string, name: string, search: nat)
    requires name != "" && search <= |s| && !Assigned(s, name)
    ensures TagAttr(s, name, search) == None
    decreases |s| - search
  {
    hide AtCi, FindCi, Assigns;
    var r := FindCi(s, name, search);
    if r.Some? {
      PassesOver(s, name, search, r.value);
      NothingAssigned(s, name, r.value + |name|);
    }
  }

  /** Followed by `=` at `e` and a quote at `x`, whose next is at `y`, the name at `p` is read with what is between. */
  lemma ReadsAt(s: string, name: string, p: nat, e: nat, x: nat, y: nat)
    requires name != "" && AtCi(s, p, name) && p > 0 && IsSeparator(s[p - 1])
    requires p + |name| <= e < x < y < |s|
    requires SkipBlanks(s, p + |name|, false) == e && s[e] == '=' && SkipBlanks(s, e + 1, true) == x
    requires (s[x] == '"' || s[x] == '\'') && Find(s, s[x], x + 1) == y
    ensures TagAttr(s, name, p) == Some(s[x + 1..y])
  {
    hide AtCi, SkipBlanks, Find;
    assert FindCi(s, name, p) == Some(p);
    hide FindCi;
  }

  /** An attribute as it is written before `z`: a name, blanks, `=`, blanks and a quoted value. */
  function Attribute(name: string, b1: string, b2: string, quote: char, value: string, z: string): string {
    name + (b1 + (['='] + (b2 + ([quote] + (value + ([quote] + z))))))
  }

  ghost predicate IsSplit(t: string, x: string, rest: string) {
    t == x + rest
  }

  ghost predicate StartsWith(t: string, c: char, rest: string) {
    t != "" && t[0] == c && t[1..] == rest
  }

  lemma Peel(s: string, i: nat, x: string, rest: string)
    requires i <= |s| && IsSplit(s[i..], x, rest)
    ensures i + |x| <= |s| && s[i..i + |x|] == x && s[i + |x|..] == rest
  {
    assert s[i..i + |x|] == s[i..][..|x|];
    assert s[i + |x|..] == s[i..][|x|..];
  }

  lemma PeelChar(s: string, i: nat, c: char, rest: string)
    requires i <= |s| && StartsWith(s[i..], c, rest)
    ensures i < |s| && s[i] == c && s[i + 1..] == rest
  {
    assert s[i..][1..] == s[i + 1..];
  }

  /**
   * The first value given to a name is read as it was written, however the name is cased,
   * whatever other names it is part of, and with blanks around the `=`.
   */
  lemma AttributeIsRead(a: string, written: string, b1: string, b2: string, q: char, v: string, z: string, name: string)
    requires a != "" && IsSeparator(a[|a| - 1]) && NoSeparator(name)
    requires SameIgnoringCase(written, name) && Spaces(b1, false) && Spaces(b2, true)
    requires (q == '"' || q == '\'') && q !in v
    requires forall j | 0 <= j < |a| :: !Assigns(a + Attribute(written, b1, b2, q, v, z), j, name)
    ensures TagAttr(a + Attribute(written, b1, b2, q, v, z), name, 0) == Some(v)
  {
    var rest := Attribute(written, b1, b2, q, v, z);
    var r6 := [q] + z;
    var r5 := v + r6;
    var r4 := [q] + r5;
    var r3 := b2 + r4;
    var r2 := ['='] + r3;
    var r1 := b1 + r2;
    StandsBehind(a, rest, written, name);
    hide IsSeparator, NoSeparator, SameIgnoringCase, Spaces, TagAttr, AtCi, Assigns;
    SameLength(written, name);
    Behind(a, rest);
    NameIsSomething(name);
    AttributeParts(a + rest, name, |a|, written, b1, b2, q, v, rest, r1, r2, r3, r4, r5, r6);
    hide Attribute;
    FirstAssignment(a + rest, name, 0, |a|);
  }

  lemma NameIsSomething(name: string)
    requires NoSeparator(name)
    ensures name != ""
  {
  }

  lemma StandsBehind(a: string, rest: string, written: string, name: string)
    requires SameIgnoringCase(written, name) && written <= rest
    ensures AtCi(a + rest, |a|, name)
  {
    AtCiIff(a + rest, |a|, name);
    assert (a + rest)[|a|..|a| + |name|] == written;
  }

  lemma Behind(a: string, rest: string)
    requires a != ""
    ensures (a + rest)[|a|..] == rest && (a + rest)[|a| - 1] == a[|a| - 1]
  {
  }

  /** The first name found is the one at `p`, and these are the parts from there on. */
  lemma AttributeParts(s: string, name: string, p: nat, written: string, b1: string, b2: string, q: char, v: string,
                       r0: string, r1: string, r2: string, r3: string, r4: string, r5: string, r6: string)
    requires AtCi(s, p, name) && 0 < p <= |s| && name != "" && |written| == |name|
    requires IsSeparator(s[p - 1]) && Spaces(b1, false) && Spaces(b2, true) && s[p..] == r0
    requires IsSplit(r0, written, r1) && IsSplit(r1, b1, r2) && StartsWith(r2, '=', r3) && IsSplit(r3, b2, r4)
    requires StartsWith(r4, q, r5) && IsSplit(r5, v, r6) && r6 != "" && StartsWith(r6, q, r6[1..])
    requires (q == '"' || q == '\'') && q !in v
    ensures TagAttr(s, name, p) == Some(v)
  {
    hide *;
    var k := p + |written|;
    var e := k + |b1|;
    var x := e + 1 + |b2|;
    var y := x + 1 + |v|;
    NamePart(s, p, k, e, written, b1, r0, r1, r2, r3);
    ValuePart(s, e + 1, x, y, b2, q, v, r3, r4, r5, r6);
    JoinsParts(s, name, p, k, e, x, y, b1, b2, q, v);
  }

  lemma NamePart(s: string, p: nat, k: nat, e: nat, written: string, b1: string, r0: string, r1: string, r2: string,
                 r3: string)
    requires p <= |s| && s[p..] == r0 && k == p + |written| && e == k + |b1|
    requires IsSplit(r0, written, r1) && IsSplit(r1, b1, r2) && StartsWith(r2, '=', r3)
    ensures e < |s| && s[k..e] == b1 && s[e] == '=' && s[e + 1..] == r3
  {
    hide *;
    Peel(s, p, written, r1);
    Peel(s, k, b1, r2);
    PeelChar(s, e, '=', r3);
  }

  lemma ValuePart(s: string, i: nat, x: nat, y: nat, b2: string, q: char, v: string, r3: string, r4: string, r5: string,
                  r6: string)
    requires i <= |s| && s[i..] == r3 && x == i + |b2| && y == x + 1 + |v|
    requires IsSplit(r3, b2, r4) && StartsWith(r4, q, r5) && IsSplit(r5, v, r6) && r6 != ""
    requires StartsWith(r6, q, r6[1..])
    ensures y < |s| && s[i..x] == b2 && s[x] == q && s[x + 1..y] == v && s[y] == q
  {
    hide *;
    Peel(s, i, b2, r4);
    PeelChar(s, x, q, r5);
    Peel(s, x + 1, v, r6);
    PeelChar(s, y, q, r6[1..]);
  }

  lemma JoinsParts(s: string, name: string, p: nat, k: nat, e: nat, x: nat, y: nat, b1: string, b2: string,
                   q: char, v: string)
    requires AtCi(s, p, name) && 0 < p && k == p + |name| <= e < x < y < |s| && name != ""
    requires IsSeparator(s[p - 1]) && Spaces(b1, false) && Spaces(b2, true) && s[k..e] == b1 && s[e + 1..x] == b2
    requires s[e] == '=' && s[x] == q && s[y] == q && s[x + 1..y] == v
    requires (q == '"' || q == '\'') && q !in v
    ensures TagAttr(s, name, p) == Some(v)
  {
    hide AtCi, IsSeparator, Spaces, TagAttr;
    ReadsAttribute(s, name, p, k, e, x, y);
  }

  /** The name at `p` is followed by blanks up to `=` at `e`, blanks up to a quote at `x`, and its next at `y`. */
  lemma ReadsAttribute(s: string, name: string, p: nat, k: nat, e: nat, x: nat, y: nat)
    requires AtCi(s, p, name) && 0 < p && k == p + |name| <= e < x < y < |s| && name != ""
    requires IsSeparator(s[p - 1]) && Spaces(s[k..e], false) && s[e] == '=' && Spaces(s[e + 1..x], true)
    requires (s[x] == '"' || s[x] == '\'') && s[x] !in s[x + 1..y] && s[y] == s[x]
    ensures TagAttr(s, name, p) == Some(s[x + 1..y])
  {
    SkipsSpaces(s, k, e, false);
    SkipsSpaces(s, e + 1, x, true);
    FindsQuote(s, s[x], x + 1, y);
    hide Spaces, IsSeparator, IsAsciiBlank, AtCi;
    ReadsAt(s, name, p, e, x, y);
  }

  predicate EndsUnquoted(c: char) {
    IsWhitespace(c) || c == '>' || c == '/'
  }

  lemma {:induction false} FindsUnquotedEnd(s: string, k: nat, e: nat)
    requires k <= e <= |s| && (forall i | k <= i < e :: !EndsUnquoted(s[i])) && (e < |s| ==> EndsUnquoted(s[e]))
    ensures FindUnquotedEnd(s, k) == e
    decreases e - k
  {
    if k < e { FindsUnquotedEnd(s, k + 1, e); }
  }

  /**
   * A value without quotes, first given to the name at `p`, goes from `x` to the next
   * whitespace, `>` or `/` at `y`.
   */
  lemma UnquotedIsRead(s: string, name: string, p: nat, e: nat, x: nat, y: nat)
    requires NoSeparator(name) && AtCi(s, p, name) && 0 < p && IsSeparator(s[p - 1])
    requires forall j | 0 <= j < p :: !Assigns(s, j, name)
    requires EqualsAt(s, p + |name|, e) && e < x < y <= |s| && Spaces(s[e + 1..x], true)
    requires s[x] != '"' && s[x] != '\''
    requires (forall i | x <= i < y :: !EndsUnquoted(s[i])) && (y < |s| ==> EndsUnquoted(s[y]))
    ensures TagAttr(s, name, 0) == Some(s[x..y])
  {
    FindsUnquotedEnd(s, x, y);
    assert !EndsUnquoted(s[x]) && !IsAsciiBlank(s[x]);
    SkipsSpaces(s, p + |name|, e, false);
    SkipsSpaces(s, e + 1, x, true);
    hide Spaces, IsSeparator, IsAsciiBlank, AtCi, FindUnquotedEnd, Assigns, EndsUnquoted;
    FirstAssignment(s, name, 0, p);
    ReadsUnquotedAt(s, name, p, e, x, y);
  }

  lemma ReadsUnquotedAt(s: string, name: string, p: nat, e: nat, x: nat, y: nat)
    requires name != "" && AtCi(s, p, name) && p > 0 && IsSeparator(s[p - 1])
    requires p + |name| <= e < x < y <= |s|
    requires SkipBlanks(s, p + |name|, false) == e && s[e] == '=' && SkipBlanks(s, e + 1, true) == x
    requires s[x] != '"' && s[x] != '\'' && FindUnquotedEnd(s, x) == y
    ensures TagAttr(s, name, p) == Some(s[x..y])
  {
    hide AtCi, SkipBlanks, FindUnquotedEnd;
    assert FindCi(s, name, p) == Some(p);
    hide FindCi;
  }

  // ----- Numbers ------------------------------------------------------------------------------------

  /** A number as it is printed, without leading zeros. */
  function Decimal(n: nat): (d: string)
    ensures d != "" && forall i | 0 <= i < |d| :: '0' <= d[i] <= '9'
  {
    if n < 10 then ['0' + n as char] else Decimal(n / 10) + ['0' + (n % 10) as char]
  }

  lemma {:induction false} DigitsOfDecimal(n: nat)
    ensures Digits(Decimal(n)) == Some(n)
  {
    var d := Decimal(n);
    var front := d[..|d| - 1];
    if n < 10 {
      assert front == "" && Digits("") == Some(0);
    } else {
      assert front == Decimal(n / 10);
      DigitsOfDecimal(n / 10);
    }
  }

  /** A number in digits comes back from the size attribute exactly if it fits 32 bits. */
  lemma DecimalIsParsed(n: nat)
    ensures ParseU32(Trim(Decimal(n))) == if n < 0x1_0000_0000 then Some(n) else None
  {
    var d := Decimal(n);
    DigitsOfDecimal(n);
    DigitShows(d[0]);
    DigitShows(d[|d| - 1]);
    hide Digits, Decimal;
    NothingTrimmed(d);
    hide Trim;
  }

  lemma DigitShows(c: char)
    requires '0' <= c <= '9'
    ensures !IsWhitespace(c) && c != '+'
  {
  }

  lemma NothingTrimmed(d: string)
    requires d != "" && !IsWhitespace(d[0]) && !IsWhitespace(d[|d| - 1])
    ensures Trim(d) == d
  {
  }

  // ----- An image tag ---------------------------------------------------------------------------------

  /** An image with the sizes it declares. */
  datatype Image = Image(width: Option<nat>, height: Option<nat>, url: string)

  /** `name="…"` and a blank, if there is a number. */
  function Size(name: string, n: Option<nat>): string {
    if n.None? then "" else name + "=\"" + Decimal(n.value) + "\" "
  }

  function Src(url: string): string {
    "src=\"" + url + "\">"
  }

  /** `<img width="…" height="…" src="…">`, without the sizes the image does not declare. */
  function ImageTag(m: Image): string {
    "<img " + Size("width", m.width) + Size("height", m.height) + Src(m.url)
  }

  /** The url can be quoted and gives no value to a size that the tag does not declare. */
  ghost predicate IsQuotable(m: Image) {
    && '"' !in m.url
    && (m.width.None? ==> !Assigned(Src(m.url), "width"))
    && (m.height.None? ==> !Assigned(Src(m.url), "height"))
  }

  /** A declared size that fits 32 bits. */
  function Declared(n: Option<nat>): Option<nat> {
    if n.Some? && n.value < 0x1_0000_0000 then n else None
  }

  lemma NameHasNoSeparator()
    ensures NoSeparator("width") && NoSeparator("height") && NoSeparator("src")
    ensures SameIgnoringCase("width", "width") && SameIgnoringCase("height", "height") && SameIgnoringCase("src", "src")
    ensures Spaces("", false) && Spaces("", true)
  {
  }

  /** A number holds no quote and no letter. */
  lemma DecimalLacks(n: nat, c: char)
    requires !('0' <= c <= '9')
    ensures c !in Decimal(n) && forall i | 0 <= i < |Decimal(n)| :: Lower(Decimal(n)[i]) != c
  {
  }

  // ----- Reading the tag ------------------------------------------------------------------------------

  /** No character of the text is the letter, in any case. */
  ghost predicate Lacks(s: string, c: char) {
    forall i | 0 <= i < |s| :: Lower(s[i]) != c
  }

  lemma LacksBoth(a: string, b: string, c: char)
    requires Lacks(a, c) && Lacks(b, c)
    ensures Lacks(a + b, c)
  {
  }

  lemma SizeLacks(name: string, n: Option<nat>, c: char)
    requires Lacks(name, c) && 'a' <= c <= 'z'
    ensures Lacks(Size(name, n), c)
  {
    if n.Some? {
      DecimalLacks(n.value, c);
      LacksBoth(name, "=\"", c);
      LacksBoth(name + "=\"", Decimal(n.value), c);
      LacksBoth(name + "=\"" + Decimal(n.value), "\" ", c);
    }
  }

  /** A size and what follows are an attribute. */
  lemma SizeIsAttribute(name: string, n: nat, z: string)
    ensures Size(name, Some(n)) + z == Attribute(name, "", "", '"', Decimal(n), " " + z)
  {
    var d := Decimal(n);
    hide Decimal;
    assert "\" " + z == ['"'] + (" " + z);
    assert name + "=\"" == name + ("" + (['='] + ("" + ['"'])));
  }

  lemma SrcIsAttribute(url: string)
    ensures Src(url) == Attribute("src", "", "", '"', url, ">")
  {
  }

  /** Behind a text without one of its letters a name is given a value where it is given one on its own. */
  lemma AssignsBehind(a: string, b: string, name: string, c: char, p: nat)
    requires a != "" && IsSeparator(a[|a| - 1]) && NoSeparator(name) && Lacks(a, c) && c in name
    requires Assigns(a + b, p, name)
    ensures p >= |a| && Assigns(b, p - |a|, name)
  {
    var s := a + b;
    NowhereWithout(a, name, c);
    FindsFirst(a, name, 0);
    hide FindCi, AtCi, Lacks, NoSeparator, IsSeparator, EqualsFollows;
    if p < |a| { MatchInFrontOrAcross(a, b, p, name); }
    var j := p - |a|;
    assert s[|a|..] == b;
    AtCiShift(s, |a|, j, name);
    EqualsBehind(a, b, j + |name|);
    assert j > 0 ==> b[j - 1] == s[p - 1];
  }

  lemma EqualsBehind(a: string, b: string, k: nat)
    requires EqualsFollows(a + b, |a| + k)
    ensures EqualsFollows(b, k)
  {
    hide Spaces;
    var e: nat :| EqualsAt(a + b, |a| + k, e);
    assert (a + b)[|a| + k..e] == b[k..e - |a|];
    assert EqualsAt(b, k, e - |a|);
  }

  /** The size named is read as declared, where the text before lacks one of its letters. */
  lemma SizeIsRead(a: string, name: string, c: char, n: Option<nat>, z: string)
    requires a != "" && a[|a| - 1] == ' ' && Lacks(a, c) && c in name
    requires NoSeparator(name) && SameIgnoringCase(name, name) && Spaces("", false) && Spaces("", true)
    requires n.None? ==> !Assigned(a + z, name)
    ensures Dimension(a + (Size(name, n) + z), name) == Declared(n)
  {
    assert IsSeparator(a[|a| - 1]);
    NameIsSomething(name);
    hide Lacks, NoSeparator, SameIgnoringCase, Spaces, TagAttr, Assigned, Assigns, IsSeparator;
    if n.Some? {
      DecimalLacks(n.value, '"');
      SizeIsAttribute(name, n.value, z);
      NoneInFront(a, Size(name, n) + z, name, c);
      hide Size;
      AttributeIsRead(a, name, "", "", '"', Decimal(n.value), " " + z, name);
      DecimalIsParsed(n.value);
      hide Decimal, ParseU32, Trim, Attribute;
      ReadsDimension(a + (Size(name, n) + z), name, Decimal(n.value));
    } else {
      assert Size(name, n) + z == z;
      NothingAssigned(a + z, name, 0);
      MissingDimension(a + z, name);
    }
  }

  lemma NoneInFront(a: string, b: string, name: string, c: char)
    requires a != "" && IsSeparator(a[|a| - 1]) && NoSeparator(name) && Lacks(a, c) && c in name
    ensures forall j | 0 <= j < |a| :: !Assigns(a + b, j, name)
  {
    hide Assigns, Lacks, NoSeparator, IsSeparator;
    forall j | 0 <= j < |a| ensures !Assigns(a + b, j, name) {
      if Assigns(a + b, j, name) { AssignsBehind(a, b, name, c, j); }
    }
  }

  lemma NoneInBoth(a: string, b: string, name: string, c: char)
    requires a != "" && IsSeparator(a[|a| - 1]) && NoSeparator(name) && Lacks(a, c) && c in name
    requires !Assigned(b, name)
    ensures !Assigned(a + b, name)
  {
    hide Assigns, Lacks, NoSeparator, IsSeparator;
    forall p: nat ensures !Assigns(a + b, p, name) {
      if Assigns(a + b, p, name) { AssignsBehind(a, b, name, c, p); }
    }
  }

  lemma ReadsDimension(tag: string, name: string, v: string)
    requires name != "" && TagAttr(tag, name, 0) == Some(v)
    ensures Dimension(tag, name) == ParseU32(Trim(v))
  {
    hide TagAttr, ParseU32, Trim;
  }

  lemma MissingDimension(tag: string, name: string)
    requires name != "" && TagAttr(tag, name, 0) == None
    ensures Dimension(tag, name) == None
  {
    hide TagAttr;
  }

  lemma Letters()
    ensures Lacks("<img ", 'w') && Lacks("<img ", 'e') && Lacks("<img ", 's')
    ensures Lacks("width", 'e') && Lacks("width", 's') && Lacks("height", 'w') && Lacks("height", 's')
  {
  }

  lemma NameLetters()
    ensures 'w' in "width" && 'e' in "height" && 's' in "src"
  {
    assert "width"[0] == 'w' && "height"[1] == 'e' && "src"[0] == 's';
  }

  /** What is written before the url ends in a blank. */
  lemma FrontEndsInBlank(w: Option<nat>, h: Option<nat>)
    ensures
      var a, b := "<img " + Size("width", w), "<img " + Size("width", w) + Size("height", h);
      var c := "<img " + Size("height", h);
      a[|a| - 1] == ' ' && b[|b| - 1] == ' ' && c[|c| - 1] == ' '
  {
    hide Decimal;
  }

  /** The three attributes of an image tag come back. */
  lemma AttributesComeBack(m: Image)
    requires IsQuotable(m)
    ensures Dimension(ImageTag(m), "width") == Declared(m.width)
    ensures Dimension(ImageTag(m), "height") == Declared(m.height)
    ensures TagAttr(ImageTag(m), "src", 0) == Some(m.url)
  {
    var w, h, src := Size("width", m.width), Size("height", m.height), Src(m.url);
    NameHasNoSeparator();
    NameLetters();
    Letters();
    SizeLacks("width", m.width, 'e');
    SizeLacks("width", m.width, 's');
    SizeLacks("height", m.height, 'w');
    SizeLacks("height", m.height, 's');
    FrontEndsInBlank(m.width, m.height);
    hide Lacks, NoSeparator, SameIgnoringCase, Spaces, Dimension, Assigned, TagAttr;
    WidthIsRead(m, w, h, src);
    HeightIsRead(m, w, h, src);
    SrcIsRead(m, w, h, src);
  }

  lemma WidthIsRead(m: Image, w: string, h: string, src: string)
    requires w == Size("width", m.width) && h == Size("height", m.height) && src == Src(m.url)
    requires Lacks("<img ", 'w') && Lacks(h, 'w') && 'w' in "width"
    requires NoSeparator("width") && SameIgnoringCase("width", "width") && Spaces("", false) && Spaces("", true)
    requires m.width.None? ==> !Assigned(src, "width")
    ensures Dimension("<img " + w + h + src, "width") == Declared(m.width)
  {
    var a := "<img " + h;
    FrontEndsInBlank(m.width, m.height);
    LacksBoth("<img ", h, 'w');
    assert IsSeparator(a[|a| - 1]);
    hide *;
    if m.width.None? {
      NoneInBoth(a, src, "width", 'w');
      Regroup("<img ", h, src);
    }
    SizeIsRead("<img ", "width", 'w', m.width, h + src);
    Regroup("<img ", w, h + src);
    Regroup("<img " + w, h, src);
  }

  lemma HeightIsRead(m: Image, w: string, h: string, src: string)
    requires w == Size("width", m.width) && h == Size("height", m.height) && src == Src(m.url)
    requires Lacks("<img ", 'e') && Lacks(w, 'e') && 'e' in "height"
    requires NoSeparator("height") && SameIgnoringCase("height", "height") && Spaces("", false) && Spaces("", true)
    requires m.height.None? ==> !Assigned(src, "height")
    ensures Dimension("<img " + w + h + src, "height") == Declared(m.height)
  {
    var a := "<img " + w;
    FrontEndsInBlank(m.width, m.height);
    LacksBoth("<img ", w, 'e');
    assert IsSeparator(a[|a| - 1]);
    hide *;
    if m.height.None? { NoneInBoth(a, src, "height", 'e'); }
    SizeIsRead(a, "height", 'e', m.height, src);
    Regroup(a, h, src);
  }

  lemma SrcIsRead(m: Image, w: string, h: string, src: string)
    requires w == Size("width", m.width) && h == Size("height", m.height) && src == Src(m.url)
    requires Lacks("<img ", 's') && Lacks(w, 's') && Lacks(h, 's') && 's' in "src" && '"' !in m.url
    requires NoSeparator("src") && SameIgnoringCase("src", "src") && Spaces("", false) && Spaces("", true)
    ensures TagAttr("<img " + w + h + src, "src", 0) == Some(m.url)
  {
    var a := "<img " + w + h;
    FrontEndsInBlank(m.width, m.height);
    LacksBoth("<img ", w, 's');
    LacksBoth("<img " + w, h, 's');
    SrcIsAttribute(m.url);
    assert IsSeparator(a[|a| - 1]);
    hide *;
    NoneInFront(a, src, "src", 's');
    AttributeIsRead(a, "src", "", "", '"', m.url, ">", "src");
  }

  // ----- Main result ----------------------------------------------------------------------------------

  /** Neither size above 48, or one at most 2; a lone size at most 48. A size of 2^32 and more counts as none. */
  predicate IsSmall(w: Option<nat>, h: Option<nat>) {
    match (w, h)
    case (Some(a), Some(b)) => (if a < b then a else b) <= 2 || (if a < b then b else a) <= 48
    case (Some(a), None) => a <= 48
    case (None, Some(b)) => b <= 48
    case (None, None) => false
  }

  /** The url holds one of the marks of trackers, in any case. */
  ghost predicate TracksOpens(url: string) {
    exists t :: t in TRACKERS && Holds(url, t)
  }

  /**
   * An image is decoration exactly if its declared sizes are small or its url is a
   * tracker's; its url is read as written.
   */
  lemma ImageIsRead(m: Image, structural: bool)
    requires IsQuotable(m)
    ensures IsDecorative(ImageTag(m)) <==> IsSmall(Declared(m.width), Declared(m.height)) || TracksOpens(m.url)
    ensures RemoteAt(ImageTag(m), structural) ==
      if IsRemoteUrl(m.url) then Some(RemoteImg(m.url, structural || IsDecorative(ImageTag(m)))) else None
  {
    var tag := ImageTag(m);
    AttributesComeBack(m);
    TrackerIff(tag, m.url);
    hide TagAttr, Dimension, IsTracker, TracksOpens, ImageTag, IsQuotable, IsRemoteUrl;
  }

  lemma TrackerIff(tag: string, url: string)
    requires TagAttr(tag, "src", 0) == Some(url)
    ensures IsTracker(tag) <==> TracksOpens(url)
  {
    hide TagAttr, Holds, FindCi;
    forall t ensures FindCi(url, t, 0).Some? <==> Holds(url, t) { FoundIff(url, t); }
    hide TRACKERS;
  }

  /** Remote is what starts, blanks aside, with one of the two schemes, in any case. */
  lemma IsRemoteUrlIff(url: string)
    ensures IsRemoteUrl(url) <==>
      exists scheme, rest :: Trim(url) == scheme + rest &&
        (SameIgnoringCase(scheme, "http://") || SameIgnoringCase(scheme, "https://"))
  {
    var t := Trim(url);
    StartIff(t, "http://");
    StartIff(t, "https://");
    hide AtCi, Trim, SameIgnoringCase;
  }

  lemma StartIff(t: string, p: string)
    ensures AtCi(t, 0, p) <==> exists a, rest :: t == a + rest && SameIgnoringCase(a, p)
  {
    AtCiIff(t, 0, p);
    hide AtCi;
    if AtCi(t, 0, p) { assert t == t[0..|p|] + t[|p|..]; }
    if a, rest :| t == a + rest && SameIgnoringCase(a, p) { assert t[0..|p|] == a; }
  }
}
