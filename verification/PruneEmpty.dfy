/**
 * `prune_empty_elements` (src/services/content.rs): passes over the text that
 * delete each element with blank contents, until a pass changes nothing or 32
 * passes are done. The specification prunes a forest bottom-up in one go.
 */
module PruneEmpty {
  import opened Wrappers
  import opened Text

  const HEADINGS := ["a", "h1", "h2", "h3", "h4", "h5", "h6"]
  const INLINES := ["p", "span", "div", "b", "i", "u", "strong", "em", "s", "del"]
  const BLOCKS := ["sub", "sup", "code", "blockquote", "ul", "ol", "li"]
  const OTHERS := ["pre", "details", "summary", "caption"]

  /** The elements that may go, by lower-case name. */
  const PRUNABLE := HEADINGS + INLINES + BLOCKS + OTHERS

  predicate IsName(name: string) {
    name != "" && '<' !in name && '>' !in name && '/' !in name
  }

  ghost predicate Names(names: seq<string>) {
    forall i | 0 <= i < |names| :: IsName(names[i])
  }

  function FirstName(names: seq<string>, s: string, k: nat): (r: Option<string>)
    ensures r.Some? ==> r.value in names && StartsTag(s, k, "<" + r.value)
  {
    if names == [] then None
    else if StartsTag(s, k, "<" + names[0]) then Some(names[0])
    else FirstName(names[1..], s, k)
  }

  /** `prunable_open_name`: the name of the prunable element that opens at `k`. */
  function OpenName(names: seq<string>, s: string, k: nat): Option<string> {
    if At(s, k, "</") then None else FirstName(names, s, k)
  }

  /** A close tag of `name` starts at `k`. */
  predicate ClosesAt(s: string, k: nat, name: string) {
    StartsTag(s, k, "</" + name) && k + |name| + 2 < |s|
  }

  /** Just past the empty element whose open tag is `s[i..q]`, if it is one that may go. */
  function EmptyEnd(names: seq<string>, s: string, i: nat, q: nat): (r: Option<nat>)
    requires q <= |s|
    ensures r.Some? ==> q < r.value <= |s|
  {
    var name := OpenName(names, s, i);
    if name.None? then None else
    var k := SkipBlank(s, q);
    if !ClosesAt(s, k, name.value) then None else
    var g := Find(s, '>', k);
    if g < |s| then Some(g + 1) else None
  }

  datatype Pass = Pass(text: string, changed: bool)

  /** One pass over the text from `i` on. */
  function PassFrom(names: seq<string>, s: string, i: nat): Pass
    requires i <= |s|
    decreases |s| - i
  {
    if i == |s| then Pass("", false)
    else if s[i] != '<' then
      var p := PassFrom(names, s, i + 1);
      Pass([s[i]] + p.text, p.changed)
    else
      var g := Find(s, '>', i);
      if g == |s| then Pass(s[i..], false) else
      var e := EmptyEnd(names, s, i, g + 1);
      if e.Some? then Pass(PassFrom(names, s, e.value).text, true) else
      var p := PassFrom(names, s, g + 1);
      Pass(s[i..g + 1] + p.text, p.changed)
  }

  /** At most `n` passes; a pass without a change is the last. */
  function Pruned(names: seq<string>, s: string, n: nat): string
    decreases n
  {
    if n == 0 then s else
    var p := PassFrom(names, s, 0);
    if p.changed then Pruned(names, p.text, n - 1) else p.text
  }

  // ----- On any text -------------------------------------------------------------------

  /** A pass that changes something shortens the text; any other returns it as it was. */
  lemma {:induction false} ChangedPassShortens(names: seq<string>, s: string, i: nat)
    requires i <= |s|
    ensures
      var p := PassFrom(names, s, i);
      if p.changed then |p.text| < |s| - i else p.text == s[i..]
    decreases |s| - i
  {
    hide EmptyEnd, Find;
    if i < |s| {
      if s[i] != '<' {
        ChangedPassShortens(names, s, i + 1);
        assert s[i..] == [s[i]] + s[i + 1..];
      } else {
        var g := Find(s, '>', i);
        if g < |s| {
          var e := EmptyEnd(names, s, i, g + 1);
          if e.Some? {
            ChangedPassShortens(names, s, e.value);
          } else {
            ChangedPassShortens(names, s, g + 1);
            assert s[i..] == s[i..g + 1] + s[g + 1..];
          }
        }
      }
    }
  }

  // ----- The loops of the source --------------------------------------------------------

  method SkipBlankContent(html: string, from: nat) returns (k: nat)
    requires from <= |html|
    ensures k == SkipBlank(html, from)
  {
    hide BlankLen, At;
    k := from;
    while true
      invariant from <= k <= |html| && SkipBlank(html, k) == SkipBlank(html, from)
      decreases |html| - k
    {
      var start := k;
      while k < |html| && IsWhitespace(html[k])
        invariant start <= k <= |html| && SkipBlank(html, k) == SkipBlank(html, from)
      {
        WhitespaceIsBlank(html, k);
        k := k + 1;
      }
      var e := 0;
      while e < |ENTITIES|
        invariant start <= k <= |html| && SkipBlank(html, k) == SkipBlank(html, from) && 0 <= e <= |ENTITIES|
        invariant k == start ==> (k < |html| ==> !IsWhitespace(html[k])) && forall d | 0 <= d < e ::
          !At(html, k, ENTITIES[d])
      {
        if At(html, k, ENTITIES[e]) {
          EntityIsBlank(html, k, e);
          k := k + 6;
        }
        e := e + 1;
      }
      if k == start {
        NothingIsBlank(html, k);
        return;
      }
    }
  }

  lemma WhitespaceIsBlank(s: string, k: nat)
    requires k < |s| && IsWhitespace(s[k])
    ensures BlankLen(s, k) == 1
  {
  }

  lemma EntityIsBlank(s: string, k: nat, e: nat)
    requires e < |ENTITIES| && At(s, k, ENTITIES[e])
    ensures BlankLen(s, k) == 6 && |ENTITIES[e]| == 6 && k + 6 <= |s|
  {
    assert ENTITIES[e][0] == '&';
    FirstAt(s, k, ENTITIES[e]);
  }

  lemma NothingIsBlank(s: string, k: nat)
    requires k < |s| ==> !IsWhitespace(s[k])
    requires forall d | 0 <= d < |ENTITIES| :: !At(s, k, ENTITIES[d])
    ensures BlankLen(s, k) == 0
  {
  }

  method PruneEmptyOnce(names: seq<string>, html: string) returns (out: string, changed: bool)
    ensures Pass(out, changed) == PassFrom(names, html, 0)
  {
    hide EmptyEnd, Find, PassFrom;
    out, changed := "", false;
    var i := 0;
    while i < |html|
      invariant i <= |html| && PassFrom(names, html, 0).text == out + PassFrom(names, html, i).text
      invariant PassFrom(names, html, 0).changed == (changed || PassFrom(names, html, i).changed)
      decreases |html| - i
    {
      PassStep(names, html, i, out);
      PassStepChanges(names, html, i);
      if html[i] != '<' {
        out := out + [html[i]];
        i := i + 1;
        continue;
      }
      var g := Find(html, '>', i);
      if g == |html| {
        out := out + html[i..];
        break;
      }
      var end := EmptyElement(names, html, i, g + 1);
      if end.Some? {
        i := end.value;
        changed := true;
        continue;
      }
      out := out + html[i..g + 1];
      i := g + 1;
    }
    PassEnds(names, html);
  }

  lemma PassStep(names: seq<string>, s: string, i: nat, out: string)
    requires i < |s|
    ensures
      var g := Find(s, '>', i);
      out + PassFrom(names, s, i).text ==
        if s[i] != '<' then (out + [s[i]]) + PassFrom(names, s, i + 1).text
        else if g == |s| then out + s[i..]
        else if EmptyEnd(names, s, i, g + 1).Some?
          then out + PassFrom(names, s, EmptyEnd(names, s, i, g + 1).value).text
        else (out + s[i..g + 1]) + PassFrom(names, s, g + 1).text
  {
    hide EmptyEnd, Find;
  }

  lemma PassStepChanges(names: seq<string>, s: string, i: nat)
    requires i < |s|
    ensures
      var g := Find(s, '>', i);
      PassFrom(names, s, i).changed <==>
        if s[i] != '<' then PassFrom(names, s, i + 1).changed
        else g < |s| && (EmptyEnd(names, s, i, g + 1).Some? || PassFrom(names, s, g + 1).changed)
  {
    hide EmptyEnd, Find;
  }

  lemma PassEnds(names: seq<string>, s: string)
    ensures PassFrom(names, s, |s|) == Pass("", false)
  {
  }

  /** Whether the tag `html[i..openEnd]` opens an empty element that may go, and where that ends. */
  method EmptyElement(names: seq<string>, html: string, i: nat, openEnd: nat) returns (end: Option<nat>)
    requires openEnd <= |html|
    ensures end == EmptyEnd(names, html, i, openEnd)
  {
    var name := OpenName(names, html, i);
    if name.None? {
      return None;
    }
    var afterBlank := SkipBlankContent(html, openEnd);
    if ClosesAt(html, afterBlank, name.value) {
      var g := Find(html, '>', afterBlank);
      if g < |html| {
        return Some(g + 1);
      }
    }
    return None;
  }

  method PruneEmptyElements(names: seq<string>, html: string) returns (out: string)
    ensures out == Pruned(names, html, 32)
  {
    out := html;
    for round := 0 to 32
      invariant Pruned(names, html, 32) == Pruned(names, out, 32 - round)
    {
      var next, changed := PruneEmptyOnce(names, out);
      if !changed {
        return next;
      }
      out := next;
    }
  }

  // ----- Well-nested text as a forest ----------------------------------------------------

  /** Blank runs, solid text, tags that stand alone, and elements with their tags. */
  datatype Forest =
    | End
    | Blank(text: string, rest: Forest)
    | Solid(text: string, rest: Forest)
    | Single(tag: string, rest: Forest)
    | Element(open: string, kids: Forest, close: string, rest: Forest)

  function Render(f: Forest): string {
    match f
    case End => ""
    case Blank(t, rest) => t + Render(rest)
    case Solid(t, rest) => t + Render(rest)
    case Single(t, rest) => t + Render(rest)
    case Element(o, kids, c, rest) => o + (Render(kids) + (c + Render(rest)))
  }

  /** Whole blank units and nothing else. */
  predicate IsBlank(t: string) {
    SkipBlank(t, 0) == |t| && '<' !in t
  }

  /** Text whose start is not blank, whatever follows it. */
  predicate IsSolid(t: string) {
    && t != "" && '<' !in t && BlankLen(t, 0) == 0
    && !(t < ENTITIES[0]) && !(t < ENTITIES[1]) && !(t < ENTITIES[2]) && !(t < ENTITIES[3])
  }

  /** A tag that is no close tag, and a close tag. */
  predicate IsOpenTag(t: string) { IsTag(t) && t[1] != '/' }

  predicate IsCloseTag(t: string) { IsTag(t) && t[1] == '/' }

  predicate IsPrunable(names: seq<string>, open: string) {
    OpenName(names, open, 0).Some?
  }

  /** Prunable elements are closed by their own name; text between tags holds no `<`. */
  predicate WellNested(names: seq<string>, f: Forest) {
    match f
    case End => true
    case Blank(t, rest) => IsBlank(t) && WellNested(names, rest)
    case Solid(t, rest) => IsSolid(t) && WellNested(names, rest)
    case Single(t, rest) => IsOpenTag(t) && !IsPrunable(names, t) && WellNested(names, rest)
    case Element(o, kids, c, rest) =>
      && IsOpenTag(o) && IsCloseTag(c) && (IsPrunable(names, o) ==> ClosesAt(c, 0, OpenName(names, o, 0).value))
      && WellNested(names, kids) && WellNested(names, rest)
  }

  predicate AllBlank(f: Forest) {
    match f
    case End => true
    case Blank(_, rest) => AllBlank(rest)
    case _ => false
  }

  /** One pass: elements that are empty now. */
  function Once(names: seq<string>, f: Forest): Forest {
    match f
    case End => End
    case Blank(t, rest) => Blank(t, Once(names, rest))
    case Solid(t, rest) => Solid(t, Once(names, rest))
    case Single(t, rest) => Single(t, Once(names, rest))
    case Element(o, kids, c, rest) =>
      if IsPrunable(names, o) && AllBlank(kids) then Once(names, rest)
      else Element(o, Once(names, kids), c, Once(names, rest))
  }

  /** Bottom-up: elements whose pruned contents are blank. */
  function Full(names: seq<string>, f: Forest): Forest {
    match f
    case End => End
    case Blank(t, rest) => Blank(t, Full(names, rest))
    case Solid(t, rest) => Solid(t, Full(names, rest))
    case Single(t, rest) => Single(t, Full(names, rest))
    case Element(o, kids, c, rest) =>
      var kids' := Full(names, kids);
      if IsPrunable(names, o) && AllBlank(kids') then Full(names, rest)
      else Element(o, kids', c, Full(names, rest))
  }

  function Max(a: nat, b: nat): nat { if a < b then b else a }

  /** How deep empty elements nest: the passes it takes until nothing is left to delete. */
  function Need(names: seq<string>, f: Forest): nat {
    match f
    case End => 0
    case Blank(_, rest) => Need(names, rest)
    case Solid(_, rest) => Need(names, rest)
    case Single(_, rest) => Need(names, rest)
    case Element(o, kids, _, rest) =>
      var inside := Need(names, kids) + (if IsPrunable(names, o) && AllBlank(Full(names, kids)) then 1 else 0);
      Max(inside, Need(names, rest))
  }

  /** The solid text and the tags that stand alone, in order. */
  function Leaves(f: Forest): seq<string> {
    match f
    case End => []
    case Blank(_, rest) => Leaves(rest)
    case Solid(t, rest) => [t] + Leaves(rest)
    case Single(t, rest) => [t] + Leaves(rest)
    case Element(_, kids, _, rest) => Leaves(kids) + Leaves(rest)
  }

  // ----- Passes on forests ----------------------------------------------------------------

  lemma {:induction false} BlankStays(names: seq<string>, f: Forest)
    requires AllBlank(f)
    ensures Full(names, f) == f && Once(names, f) == f && Need(names, f) == 0 && Leaves(f) == []
  {
    if f.Blank? { BlankStays(names, f.rest); }
  }

  /** Without need the forest is pruned, and a pass leaves it alone. */
  lemma {:induction false} NoNeedIsFull(names: seq<string>, f: Forest)
    requires Need(names, f) == 0
    ensures Full(names, f) == f && Once(names, f) == f
  {
    match f
    case End =>
    case Element(_, kids, _, rest) =>
      NoNeedIsFull(names, kids);
      NoNeedIsFull(names, rest);
    case _ =>
      NoNeedIsFull(names, f.rest);
  }

  /** A pass is a step of the bottom-up pruning: same end, one less to go. */
  lemma {:induction false} OnceProgresses(names: seq<string>, f: Forest)
    ensures Full(names, Once(names, f)) == Full(names, f)
    ensures Need(names, Once(names, f)) == if Need(names, f) == 0 then 0 else Need(names, f) - 1
    ensures Leaves(Once(names, f)) == Leaves(f)
  {
    match f
    case End =>
    case Element(o, kids, c, rest) =>
      OnceProgresses(names, rest);
      if IsPrunable(names, o) && AllBlank(kids) {
        BlankStays(names, kids);
      } else {
        OnceProgresses(names, kids);
        if AllBlank(Once(names, kids)) { BlankStays(names, Once(names, kids)); }
        if Need(names, kids) == 0 { NoNeedIsFull(names, kids); }
      }
    case _ =>
      OnceProgresses(names, f.rest);
  }

  lemma {:induction false} FullIsFull(names: seq<string>, f: Forest)
    ensures Need(names, Full(names, f)) == 0
  {
    match f
    case End =>
    case Element(o, kids, c, rest) =>
      FullIsFull(names, kids);
      FullIsFull(names, rest);
      NoNeedIsFull(names, Full(names, kids));
    case _ =>
      FullIsFull(names, f.rest);
  }

  lemma {:induction false} OnceKeepsWellNested(names: seq<string>, f: Forest)
    requires WellNested(names, f)
    ensures WellNested(names, Once(names, f))
  {
    match f
    case End =>
    case Element(_, kids, _, rest) =>
      OnceKeepsWellNested(names, kids);
      OnceKeepsWellNested(names, rest);
    case _ =>
      OnceKeepsWellNested(names, f.rest);
  }

  lemma {:induction false} OnceShrinks(names: seq<string>, f: Forest)
    requires WellNested(names, f)
    ensures |Render(Once(names, f))| <= |Render(f)|
    ensures Once(names, f) != f ==> |Render(Once(names, f))| < |Render(f)|
  {
    match f
    case End =>
    case Element(o, kids, _, rest) =>
      OnceShrinks(names, kids);
      OnceShrinks(names, rest);
    case _ =>
      OnceShrinks(names, f.rest);
  }

  // ----- The pass on the text is the pass on the forest -------------------------------------

  lemma EntityWithin(s: string, i: nat, t: string, k: nat, e: string)
    requires At(s, i, t) && At(t, k, e)
    ensures At(s, i + k, e)
  {
    forall x | 0 <= x < |e| ensures s[i + k..i + k + |e|][x] == e[x] {
      assert s[i + k + x] == s[i..i + |t|][k + x] == t[k..k + |e|][x];
    }
  }

  lemma BlankLenWithin(s: string, i: nat, t: string, k: nat)
    requires At(s, i, t) && BlankLen(t, k) > 0
    ensures BlankLen(s, i + k) == BlankLen(t, k)
  {
    assert s[i + k] == s[i..i + |t|][k] == t[k];
    if e: nat :| e < 4 && At(t, k, ENTITIES[e]) {
      EntityWithin(s, i, t, k, ENTITIES[e]);
    }
  }

  lemma {:induction false} BlankSkips(s: string, i: nat, t: string, k: nat)
    requires At(s, i, t) && k <= |t| && SkipBlank(t, k) == |t|
    ensures SkipBlank(s, i + k) == SkipBlank(s, i + |t|)
    decreases |t| - k
  {
    hide BlankLen;
    if k < |t| {
      BlankLenWithin(s, i, t, k);
      BlankSkips(s, i, t, k + BlankLen(t, k));
    }
  }

  /** Of two texts at one place the shorter starts the longer. */
  lemma ShorterStartsLonger(s: string, i: nat, t: string, e: string)
    requires At(s, i, t) && At(s, i, e)
    ensures if |e| <= |t| then At(t, 0, e) else t < e
  {
    if |e| <= |t| {
      assert t[0..|e|] == s[i..i + |t|][..|e|] == s[i..i + |e|];
    } else {
      assert e[..|t|] == s[i..i + |e|][..|t|] == s[i..i + |t|];
    }
  }

  lemma SolidStops(s: string, i: nat, t: string)
    requires At(s, i, t) && IsSolid(t)
    ensures i < |s| && BlankLen(s, i) == 0 && s[i] != '<'
  {
    FirstAt(s, i, t);
    if At(s, i, ENTITIES[0]) { ShorterStartsLonger(s, i, t, ENTITIES[0]); }
    if At(s, i, ENTITIES[1]) { ShorterStartsLonger(s, i, t, ENTITIES[1]); }
    if At(s, i, ENTITIES[2]) { ShorterStartsLonger(s, i, t, ENTITIES[2]); }
    if At(s, i, ENTITIES[3]) { ShorterStartsLonger(s, i, t, ENTITIES[3]); }
  }

  lemma AngleStops(s: string, i: nat)
    requires i < |s| && s[i] == '<'
    ensures BlankLen(s, i) == 0
  {
  }

  /** A close tag stands here. */
  predicate CloseTagHere(s: string, k: nat) {
    k + 1 < |s| && s[k] == '<' && s[k + 1] == '/'
  }

  lemma TagOpensAt(s: string, i: nat, tag: string)
    requires At(s, i, tag) && IsTag(tag)
    ensures i + 1 < |s| && s[i] == '<' && s[i + 1] == tag[1]
  {
    assert s[i..i + |tag|][0] == s[i] && s[i..i + |tag|][1] == s[i + 1];
  }

  /** Blanks are skipped to the end of a blank forest, and no further than the first leaf or open tag of another. */
  /** Where no blank unit stands nothing is skipped. */
  lemma NothingSkipped(s: string, i: nat)
    requires i < |s| && BlankLen(s, i) == 0
    ensures SkipBlank(s, i) == i
  {
    hide BlankLen;
  }

  lemma TagIsNotSkipped(s: string, i: nat, tag: string)
    requires At(s, i, tag) && IsTag(tag)
    ensures i + 1 < |s| && s[i] == '<' && s[i + 1] == tag[1] && SkipBlank(s, i) == i
  {
    TagOpensAt(s, i, tag);
    hide BlankLen;
    AngleStops(s, i);
    NothingSkipped(s, i);
  }

  lemma {:induction false} SkipsBlanksOnly(names: seq<string>, s: string, i: nat, f: Forest)
    requires WellNested(names, f) && At(s, i, Render(f))
    ensures AllBlank(f) ==> SkipBlank(s, i) == SkipBlank(s, i + |Render(f)|)
    ensures !AllBlank(f) ==> SkipBlank(s, i) < |s| && !CloseTagHere(s, SkipBlank(s, i))
    decreases f
  {
    hide BlankLen, OpenName, ClosesAt, SkipBlank;
    match f
    case End =>
    case Blank(t, rest) =>
      AtSplit(s, i, t, Render(rest));
      BlankSkips(s, i, t, 0);
      SkipsBlanksOnly(names, s, i + |t|, rest);
    case Solid(t, rest) =>
      AtSplit(s, i, t, Render(rest));
      SolidStops(s, i, t);
      NothingSkipped(s, i);
    case Single(t, rest) =>
      AtSplit(s, i, t, Render(rest));
      TagIsNotSkipped(s, i, t);
    case Element(o, kids, c, rest) =>
      AtSplit(s, i, o, Render(kids) + (c + Render(rest)));
      TagIsNotSkipped(s, i, o);
  }

  /** A tag name is read from its tag alone. */
  lemma StartsTagWithin(s: string, i: nat, tag: string, p: string)
    requires At(s, i, tag) && IsTag(tag) && p != "" && '>' !in p
    ensures StartsTag(s, i, p) <==> StartsTag(tag, 0, p)
    ensures StartsTag(tag, 0, p) ==> |p| < |tag|
  {
    hide AtCi, IsBoundary;
    var last: nat := |tag| - 1;
    assert s[i..i + |tag|][last] == s[i + last];
    if |p| < |tag| {
      AtCiWithin(s, i, tag, 0, p);
      assert s[i..i + |tag|][|p|] == s[i + |p|];
      BoundaryIsLocal(s, i + |p|, tag, |p|);
    } else {
      if AtCi(s, i, p) { MatchLacks(s, i, p, '>', i + last); }
      if AtCi(tag, 0, p) { MatchLacks(tag, 0, p, '>', last); }
    }
  }

  lemma BoundaryIsLocal(s: string, i: nat, t: string, k: nat)
    requires i < |s| && k < |t| && s[i] == t[k]
    ensures IsBoundary(s, i) == IsBoundary(t, k)
  {
  }

  lemma {:induction false} FirstNameWithin(names: seq<string>, s: string, i: nat, tag: string)
    requires Names(names) && At(s, i, tag) && IsTag(tag)
    ensures FirstName(names, s, i) == FirstName(names, tag, 0)
  {
    hide IsTag, StartsTag, At;
    if names != [] {
      assert IsName(names[0]);
      StartsTagWithin(s, i, tag, "<" + names[0]);
      assert forall j | 0 <= j < |names[1..]| :: names[1..][j] == names[j + 1];
      FirstNameWithin(names[1..], s, i, tag);
    }
  }

  lemma OpenNameWithin(names: seq<string>, s: string, i: nat, tag: string)
    requires Names(names) && At(s, i, tag) && IsTag(tag)
    ensures OpenName(names, s, i) == OpenName(names, tag, 0)
    ensures IsCloseTag(tag) ==> OpenName(names, tag, 0).None?
  {
    hide FirstName;
    TagOpensAt(s, i, tag);
    FirstNameWithin(names, s, i, tag);
    assert At(s, i, "</") <==> tag[1] == '/';
    assert At(tag, 0, "</") <==> tag[1] == '/';
  }

  lemma ClosesWithin(s: string, i: nat, tag: string, name: string)
    requires At(s, i, tag) && IsTag(tag) && IsName(name) && ClosesAt(tag, 0, name)
    ensures ClosesAt(s, i, name)
  {
    var p := "</" + name;
    assert '>' !in p && p != "";
    StartsTagWithin(s, i, tag, p);
  }

  lemma NoCloseNoMatch(s: string, k: nat, name: string)
    requires !CloseTagHere(s, k)
    ensures !ClosesAt(s, k, name)
  {
    hide AtCi;
    if AtCi(s, k, "</" + name) { FirstTwoAt(s, k, "</" + name); }
  }

  /** The element is found empty exactly when its kids are blank, and it ends where its close tag `c` does. */
  lemma FindsEmpty(names: seq<string>, s: string, i: nat, o: string, q: nat, blank: bool, z: nat, c: string)
    requires Names(names) && At(s, i, o) && IsOpenTag(o) && q == i + |o|
    requires At(s, z, c) && IsCloseTag(c) && (IsPrunable(names, o) ==> ClosesAt(c, 0, OpenName(names, o, 0).value))
    requires if blank then SkipBlank(s, q) == SkipBlank(s, z)
      else SkipBlank(s, q) < |s| && !CloseTagHere(s, SkipBlank(s, q))
    ensures EmptyEnd(names, s, i, q) == if IsPrunable(names, o) && blank then Some(z + |c|) else None
  {
    hide At, IsTag, Find, SkipBlank, CloseTagHere, AtCi, OpenName, Names, FirstName, StartsTag;
    OpenNameWithin(names, s, i, o);
    CloseStops(s, z, c);
    var name := OpenName(names, o, 0);
    if name.Some? {
      NameIsName(names, o, name.value);
      if blank { ClosesWithin(s, z, c, name.value); } else { NoCloseNoMatch(s, SkipBlank(s, q), name.value); }
    }
  }

  lemma CloseStops(s: string, z: nat, c: string)
    requires At(s, z, c) && IsCloseTag(c)
    ensures z + |c| <= |s| && SkipBlank(s, z) == z && Find(s, '>', z) == z + |c| - 1
  {
    hide BlankLen;
    TagOpensAt(s, z, c);
    AngleStops(s, z);
    TagEndsAt(s, z, c, 0);
  }

  lemma NameIsName(names: seq<string>, tag: string, name: string)
    requires Names(names) && OpenName(names, tag, 0) == Some(name)
    ensures IsName(name)
  {
  }

  lemma {:induction false} CopiesText(names: seq<string>, s: string, i: nat, t: string, k: nat)
    requires At(s, i, t) && '<' !in t && k <= |t|
    ensures
      var p, p' := PassFrom(names, s, i + k), PassFrom(names, s, i + |t|);
      p.text == t[k..] + p'.text && p.changed == p'.changed
    decreases |t| - k
  {
    hide Find, EmptyEnd;
    if k < |t| {
      assert s[i..i + |t|][k] == s[i + k] == t[k];
      CopiesText(names, s, i, t, k + 1);
      assert t[k..] == [t[k]] + t[k + 1..];
    }
  }

  lemma CopiesTag(names: seq<string>, s: string, i: nat, tag: string)
    requires At(s, i, tag) && IsTag(tag) && EmptyEnd(names, s, i, i + |tag|).None?
    ensures
      var p, p' := PassFrom(names, s, i), PassFrom(names, s, i + |tag|);
      p.text == tag + p'.text && p.changed == p'.changed
  {
    TagOpensAt(s, i, tag);
    TagEndsAt(s, i, tag, 0);
    hide Find, EmptyEnd, IsTag;
  }

  lemma DropsElement(names: seq<string>, s: string, i: nat, tag: string, r: nat)
    requires At(s, i, tag) && IsTag(tag) && EmptyEnd(names, s, i, i + |tag|) == Some(r)
    ensures PassFrom(names, s, i) == Pass(PassFrom(names, s, r).text, true)
  {
    hide Find, EmptyEnd;
    TagOpensAt(s, i, tag);
    TagEndsAt(s, i, tag, 0);
    hide IsTag, At;
  }

  /** A tag that opens nothing prunable is copied. */
  lemma CopiesPlainTag(names: seq<string>, s: string, i: nat, tag: string)
    requires Names(names) && At(s, i, tag) && IsTag(tag) && (IsPrunable(names, tag) ==> IsCloseTag(tag))
    ensures
      var p, p' := PassFrom(names, s, i), PassFrom(names, s, i + |tag|);
      p.text == tag + p'.text && p.changed == p'.changed
  {
    OpenNameWithin(names, s, i, tag);
    hide PassFrom, OpenName, IsTag;
    CopiesTag(names, s, i, tag);
  }

  /** `p` is the pass over `x` followed by what `p'` is the pass over; `x'` is left of `x`. */
  ghost predicate Follows(p: Pass, x': string, changed: bool, p': Pass) {
    p.text == x' + p'.text && (p.changed <==> changed || p'.changed)
  }

  lemma FollowsTwice(p: Pass, a: string, x: bool, q: Pass, b: string, y: bool, r: Pass)
    requires Follows(p, a, x, q) && Follows(q, b, y, r)
    ensures Follows(p, a + b, x || y, r)
  {
  }

  /** A leaf is copied, wherever it stands. */
  lemma LeafFollows(names: seq<string>, s: string, i: nat, f: Forest)
    requires Names(names) && WellNested(names, f) && At(s, i, Render(f)) && (f.Blank? || f.Solid? || f.Single?)
    ensures
      var t := if f.Single? then f.tag else f.text;
      && At(s, i + |t|, Render(f.rest)) && |Render(f)| == |t| + |Render(f.rest)|
      && Follows(PassFrom(names, s, i), t, false, PassFrom(names, s, i + |t|))
  {
    hide PassFrom, OpenName, IsTag, BlankLen, SkipBlank;
    if f.Single? {
      AtSplit(s, i, f.tag, Render(f.rest));
      CopiesPlainTag(names, s, i, f.tag);
    } else {
      AtSplit(s, i, f.text, Render(f.rest));
      CopiesText(names, s, i, f.text, 0);
    }
  }

  /** Where the kids, the close tag and the rest of an element printed at `i` begin. */
  function KidsAt(i: nat, f: Forest): nat
    requires f.Element?
  {
    i + |f.open|
  }

  function CloseAt(i: nat, f: Forest): nat
    requires f.Element?
  {
    KidsAt(i, f) + |Render(f.kids)|
  }

  function RestAt(i: nat, f: Forest): nat
    requires f.Element?
  {
    CloseAt(i, f) + |f.close|
  }

  lemma ElementRenders(s: string, i: nat, f: Forest)
    requires f.Element? && At(s, i, Render(f))
    ensures Render(f) == f.open + (Render(f.kids) + (f.close + Render(f.rest))) && i + |Render(f)| <= |s|
  {
  }

  lemma PartsHeld(s: string, i: nat, f: Forest)
    requires f.Element? && At(s, i, Render(f))
    ensures RestAt(i, f) + |Render(f.rest)| == i + |Render(f)| <= |s|
    ensures At(s, i, f.open) && At(s, KidsAt(i, f), Render(f.kids)) && At(s, CloseAt(i, f), f.close)
    ensures At(s, RestAt(i, f), Render(f.rest))
  {
    hide Render, At;
    var y := f.close + Render(f.rest);
    var x := Render(f.kids) + y;
    ElementRenders(s, i, f);
    AtSplit(s, i, f.open, x);
    AtSplit(s, KidsAt(i, f), Render(f.kids), y);
    AtSplit(s, CloseAt(i, f), f.close, Render(f.rest));
  }

  /** The tags of an element that stays are copied; one that goes leaves nothing. */
  lemma ElementFollows(names: seq<string>, s: string, f: Forest, i: nat, q: nat, z: nat, r: nat)
    requires Names(names) && f.Element? && WellNested(names, f)
    requires q == i + |f.open| && r == z + |f.close| <= |s|
    requires At(s, i, f.open) && At(s, z, f.close)
    requires if AllBlank(f.kids) then SkipBlank(s, q) == SkipBlank(s, z)
      else SkipBlank(s, q) < |s| && !CloseTagHere(s, SkipBlank(s, q))
    ensures
      if IsPrunable(names, f.open) && AllBlank(f.kids) then
        Follows(PassFrom(names, s, i), "", true, PassFrom(names, s, r))
      else
        && Follows(PassFrom(names, s, i), f.open, false, PassFrom(names, s, q))
        && Follows(PassFrom(names, s, z), f.close, false, PassFrom(names, s, r))
  {
    hide PassFrom, OpenName, IsTag, SkipBlank, ClosesAt, EmptyEnd, At;
    FindsEmpty(names, s, i, f.open, q, AllBlank(f.kids), z, f.close);
    if IsPrunable(names, f.open) && AllBlank(f.kids) {
      DropsElement(names, s, i, f.open, r);
      assert "" + PassFrom(names, s, r).text == PassFrom(names, s, r).text;
    } else {
      CopiesTag(names, s, i, f.open);
      CopiesPlainTag(names, s, z, f.close);
    }
  }

  lemma NothingFollows(p: Pass)
    ensures Follows(p, "", false, p)
  {
    assert "" + p.text == p.text;
  }

  lemma JoinDropped(names: seq<string>, f: Forest, p: Pass, pRest: Pass, after: Pass)
    requires f.Element? && WellNested(names, f) && IsPrunable(names, f.open) && AllBlank(f.kids)
    requires Follows(p, "", true, pRest)
    requires Follows(pRest, Render(Once(names, f.rest)), Once(names, f.rest) != f.rest, after)
    ensures Follows(p, Render(Once(names, f)), Once(names, f) != f, after)
  {
    hide IsTag, ClosesAt;
    OnceShrinks(names, f.rest);
    assert "" + Render(Once(names, f.rest)) == Render(Once(names, f.rest));
    FollowsTwice(p, "", true, pRest, Render(Once(names, f.rest)), Once(names, f.rest) != f.rest, after);
  }

  lemma JoinKept(names: seq<string>, f: Forest, p: Pass, pKids: Pass, pClose: Pass, pRest: Pass, after: Pass)
    requires f.Element? && !(IsPrunable(names, f.open) && AllBlank(f.kids))
    requires Follows(p, f.open, false, pKids)
    requires Follows(pKids, Render(Once(names, f.kids)), Once(names, f.kids) != f.kids, pClose)
    requires Follows(pClose, f.close, false, pRest)
    requires Follows(pRest, Render(Once(names, f.rest)), Once(names, f.rest) != f.rest, after)
    ensures Follows(p, Render(Once(names, f)), Once(names, f) != f, after)
  {
    var inside, y := Render(Once(names, f.kids)), Once(names, f.kids) != f.kids;
    var behind, x := Render(Once(names, f.rest)), Once(names, f.rest) != f.rest;
    assert Render(Once(names, f)) == f.open + (inside + (f.close + behind)) && (Once(names, f) != f <==> y || x);
    hide Follows, Render, Once, IsPrunable;
    FollowsTwice(pClose, f.close, false, pRest, behind, x, after);
    FollowsTwice(pKids, inside, y, pClose, f.close + behind, x, after);
    FollowsTwice(p, f.open, false, pKids, inside + (f.close + behind), y || x, after);
  }

  lemma JoinLeaf(names: seq<string>, f: Forest, p: Pass, pRest: Pass, after: Pass)
    requires f.Blank? || f.Solid? || f.Single?
    requires Follows(p, if f.Single? then f.tag else f.text, false, pRest)
    requires Follows(pRest, Render(Once(names, f.rest)), Once(names, f.rest) != f.rest, after)
    ensures Follows(p, Render(Once(names, f)), Once(names, f) != f, after)
  {
    hide Follows;
    FollowsTwice(p, if f.Single? then f.tag else f.text, false, pRest,
                 Render(Once(names, f.rest)), Once(names, f.rest) != f.rest, after);
  }

  ghost predicate PassesAs(names: seq<string>, s: string, i: nat, f: Forest, e: nat)
    requires i <= |s| && e <= |s|
  {
    Follows(PassFrom(names, s, i), Render(Once(names, f)), Once(names, f) != f, PassFrom(names, s, e))
  }

  lemma ElementPasses(names: seq<string>, s: string, f: Forest, i: nat, q: nat, z: nat, r: nat, e: nat)
    requires Names(names) && f.Element? && WellNested(names, f)
    requires q == i + |f.open| <= z && r == z + |f.close| <= e <= |s|
    requires At(s, i, f.open) && At(s, q, Render(f.kids)) && At(s, z, f.close) && z == q + |Render(f.kids)|
    requires PassesAs(names, s, q, f.kids, z) && PassesAs(names, s, r, f.rest, e)
    ensures PassesAs(names, s, i, f, e)
  {
    hide PassFrom, At, IsTag, OpenName, ClosesAt, Follows, SkipBlank, CloseTagHere, Names, Render, Once;
    SkipsBlanksOnly(names, s, q, f.kids);
    ElementFollows(names, s, f, i, q, z, r);
    if IsPrunable(names, f.open) && AllBlank(f.kids) {
      JoinDropped(names, f, PassFrom(names, s, i), PassFrom(names, s, r), PassFrom(names, s, e));
    } else {
      JoinKept(names, f, PassFrom(names, s, i), PassFrom(names, s, q), PassFrom(names, s, z), PassFrom(names, s, r),
               PassFrom(names, s, e));
    }
  }

  lemma LeafPasses(names: seq<string>, s: string, f: Forest, i: nat, r: nat, e: nat)
    requires Names(names) && WellNested(names, f) && At(s, i, Render(f)) && (f.Blank? || f.Solid? || f.Single?)
    requires r == i + |if f.Single? then f.tag else f.text| <= e <= |s| && PassesAs(names, s, r, f.rest, e)
    ensures PassesAs(names, s, i, f, e)
  {
    LeafFollows(names, s, i, f);
    JoinLeaf(names, f, PassFrom(names, s, i), PassFrom(names, s, r), PassFrom(names, s, e));
  }

  lemma EndPasses(names: seq<string>, s: string, i: nat)
    requires i <= |s|
    ensures Render(End) == "" && PassesAs(names, s, i, End, i)
  {
    hide PassFrom;
    NothingFollows(PassFrom(names, s, i));
  }

  lemma SubforestsNest(names: seq<string>, f: Forest)
    requires WellNested(names, f)
    ensures f.Element? ==> WellNested(names, f.kids)
    ensures !f.End? ==> WellNested(names, f.rest)
  {
  }

  /** Wherever a well-nested forest is printed, the pass over its text is the pass over the forest. */
  lemma {:induction false} PassIsOnce(names: seq<string>, s: string, i: nat, f: Forest, e: nat)
    requires Names(names) && WellNested(names, f) && At(s, i, Render(f))
    requires e == i + |Render(f)| <= |s|
    ensures PassesAs(names, s, i, f, e)
    decreases f
  {
    hide PassFrom, At, Names, WellNested, Once, PassesAs;
    SubforestsNest(names, f);
    if f.End? {
      EndPasses(names, s, i);
    } else if f.Element? {
      hide Render;
      var q, z, r := KidsAt(i, f), CloseAt(i, f), RestAt(i, f);
      PartsHeld(s, i, f);
      PassIsOnce(names, s, q, f.kids, z);
      PassIsOnce(names, s, r, f.rest, e);
      ElementPasses(names, s, f, i, q, z, r, e);
    } else {
      hide Render;
      LeafFollows(names, s, i, f);
      var r := i + |if f.Single? then f.tag else f.text|;
      PassIsOnce(names, s, r, f.rest, e);
      LeafPasses(names, s, f, i, r, e);
    }
  }

  // ----- Main results ------------------------------------------------------------------------

  /** One pass over a well-nested text deletes the elements that are empty now, and says whether it did. */
  lemma PassPrunesOnce(names: seq<string>, f: Forest)
    requires Names(names) && WellNested(names, f)
    ensures PassFrom(names, Render(f), 0) == Pass(Render(Once(names, f)), Once(names, f) != f)
  {
    hide PassFrom, WellNested;
    var s := Render(f);
    assert At(s, 0, s);
    PassIsOnce(names, s, 0, f, |s|);
    PassEnds(names, s);
    assert Render(Once(names, f)) + "" == Render(Once(names, f));
  }

  /** The passes reach the bottom-up pruning exactly when empty elements nest no deeper than the passes allowed. */
  lemma {:induction false} PassesReachFullIffNestingAllows(names: seq<string>, f: Forest, n: nat)
    requires Names(names) && WellNested(names, f)
    ensures Pruned(names, Render(f), n) == Render(Full(names, f)) <==> Need(names, f) <= n
    decreases n
  {
    hide WellNested, PassFrom;
    PassPrunesOnce(names, f);
    OnceProgresses(names, f);
    OnceKeepsWellNested(names, f);
    if Need(names, f) == 0 { NoNeedIsFull(names, f); }
    if n == 0 {
      if Need(names, f) > 0 { FullShrinks(names, f); }
    } else {
      PassesReachFullIffNestingAllows(names, Once(names, f), n - 1);
    }
  }

  lemma {:induction false} FullShrinks(names: seq<string>, f: Forest)
    requires WellNested(names, f) && Need(names, f) > 0
    ensures |Render(Full(names, f))| < |Render(f)|
    decreases Need(names, f)
  {
    hide WellNested;
    OnceProgresses(names, f);
    OnceKeepsWellNested(names, f);
    OnceShrinks(names, f);
    if Need(names, f) == 1 { NoNeedIsFull(names, Once(names, f)); } else { FullShrinks(names, Once(names, f)); }
  }

  lemma {:induction false} FullKeepsLeaves(names: seq<string>, f: Forest)
    ensures Leaves(Full(names, f)) == Leaves(f)
    decreases Need(names, f)
  {
    OnceProgresses(names, f);
    if Need(names, f) == 0 { NoNeedIsFull(names, f); } else { FullKeepsLeaves(names, Once(names, f)); }
  }

  lemma NamesJoin(a: seq<string>, b: seq<string>)
    requires Names(a) && Names(b)
    ensures Names(a + b)
  {
  }

  lemma HeadingNames()
    ensures Names(HEADINGS)
  {
  }

  lemma InlineNames()
    ensures Names(INLINES)
  {
  }

  lemma BlockNames()
    ensures Names(BLOCKS)
  {
  }

  lemma OtherNames()
    ensures Names(OTHERS)
  {
  }

  lemma PrunableNames()
    ensures Names(PRUNABLE)
  {
    hide Names, IsName;
    HeadingNames();
    InlineNames();
    BlockNames();
    OtherNames();
    NamesJoin(HEADINGS, INLINES);
    NamesJoin(HEADINGS + INLINES, BLOCKS);
    NamesJoin(HEADINGS + INLINES + BLOCKS, OTHERS);
  }

  /** `prune_empty_elements` with the source's own list of elements. */
  method PruneHtml(html: string) returns (out: string)
    ensures |out| <= |html|
    ensures forall f: Forest | WellNested(PRUNABLE, f) && html == Render(f) ::
      out == Render(Full(PRUNABLE, f)) <==> Need(PRUNABLE, f) <= 32
  {
    hide Render, Full, Need, WellNested, Pruned;
    PrunableNames();
    out := PruneEmptyElements(PRUNABLE, html);
    PrunedIsNoLonger(PRUNABLE, html, 32);
    forall f: Forest | WellNested(PRUNABLE, f) && html == Render(f)
      ensures out == Render(Full(PRUNABLE, f)) <==> Need(PRUNABLE, f) <= 32
    {
      PassesReachFullIffNestingAllows(PRUNABLE, f, 32);
    }
  }

  lemma {:induction false} PrunedIsNoLonger(names: seq<string>, s: string, n: nat)
    ensures |Pruned(names, s, n)| <= |s|
    decreases n
  {
    hide PassFrom;
    if n > 0 {
      ChangedPassShortens(names, s, 0);
      PrunedIsNoLonger(names, PassFrom(names, s, 0).text, n - 1);
    }
  }
}
