/**
 * `strip_reply_blockquotes` (src/services/content.rs): drops the blockquotes in
 * which mail clients wrap the message they answer, and keeps editorial ones. The
 * source scans characters and counts depth; the specification deletes subtrees.
 */
module ReplyQuotes {
  import opened Wrappers
  import opened Text

  /** How a quote opens, how it closes, and which open tags mark a reply. */
  datatype Marks = Marks(open: string, close: string, isReply: string -> bool)

  /** The open tag carries a reply marker. */
  predicate IsReply(tag: string) {
    || FindCi(tag, "type=\"cite\"", 0).Some?
    || FindCi(tag, "type='cite'", 0).Some?
    || FindCi(tag, "type=cite", 0).Some?
    || FindCi(tag, "_quote", 0).Some?
  }

  const BLOCKQUOTE := Marks("<blockquote", "</blockquote", IsReply)

  /** Both start with the only `<` they contain, and neither starts the other. */
  ghost predicate Sound(m: Marks) {
    && |m.open| >= 2 && m.open[0] == '<' && '<' !in m.open[1..]
    && |m.close| >= 2 && m.close[0] == '<' && '<' !in m.close[1..]
    && m.open[1] != m.close[1]
  }

  /** Where the text goes on after the quotes left open at `j`, `depth` of them. */
  function SkipFrom(m: Marks, s: string, j: nat, depth: nat): (r: nat)
    requires m.open != "" && j <= |s|
    ensures j <= r <= |s|
    decreases |s| - j
  {
    if j == |s| || depth == 0 then j else
    var o, c := FindCi(s, m.open, j), FindCi(s, m.close, j);
    if o.Some? && (c.None? || o.value < c.value) then SkipFrom(m, s, o.value + |m.open|, depth + 1)
    else if c.Some? && c.value < |s| then SkipFrom(m, s, TagEnd(s, c.value), depth - 1)
    else |s|
  }

  /** What is kept of the text from `i` on. */
  function StripFrom(m: Marks, s: string, i: nat): string
    requires m.open != "" && i <= |s|
    decreases |s| - i
  {
    match FindCi(s, m.open, i)
    case None => s[i..]
    case Some(o) =>
      var g := Find(s, '>', o);
      if g == |s| then s[i..]
      else if !m.isReply(s[o..g + 1]) then s[i..g + 1] + StripFrom(m, s, g + 1)
      else s[i..o] + StripFrom(m, s, SkipFrom(m, s, g + 1, 1))
  }

  // ----- The scanner of the source ---------------------------------------------------

  lemma StripStep(m: Marks, s: string, i: nat, out: string)
    requires m.open != "" && i <= |s|
    ensures
      var found := FindCi(s, m.open, i);
      out + StripFrom(m, s, i) ==
        if found.None? || Find(s, '>', found.value) == |s| then out + s[i..]
        else
          var o, q := found.value, Find(s, '>', found.value) + 1;
          if m.isReply(s[o..q]) then (out + s[i..o]) + StripFrom(m, s, SkipFrom(m, s, q, 1))
          else (out + s[i..q]) + StripFrom(m, s, q)
  {
    hide FindCi, Find, SkipFrom;
  }

  lemma StripEnd(m: Marks, s: string)
    requires m.open != ""
    ensures StripFrom(m, s, |s|) == ""
  {
  }

  method StripReplyQuotes(m: Marks, html: string) returns (out: string)
    requires Sound(m)
    ensures out == StripFrom(m, html, 0)
  {
    hide FindCi, SkipFrom, Find, AtCi, StripFrom;
    out := "";
    var i := 0;
    while i < |html|
      invariant i <= |html| && StripFrom(m, html, 0) == out + StripFrom(m, html, i)
      decreases |html| - i
    {
      var found := FindCi(html, m.open, i);
      StripStep(m, html, i, out);
      if found.None? {
        out := out + html[i..];
        return;
      }
      var open := found.value;
      var g := Find(html, '>', open);
      if g == |html| {
        out := out + html[i..];
        return;
      }
      var tagEnd := g + 1;
      if !m.isReply(html[open..tagEnd]) {
        out := out + html[i..tagEnd];
        i := tagEnd;
      } else {
        out := out + html[i..open];
        i := SkipRegion(m, html, tagEnd);
      }
    }
    StripEnd(m, html);
  }

  /** The inner loop: past the matching close of a reply quote. */
  method SkipRegion(m: Marks, html: string, from: nat) returns (j: nat)
    requires Sound(m) && from <= |html|
    ensures from <= j <= |html| && j == SkipFrom(m, html, from, 1)
  {
    hide FindCi, Find;
    var depth: nat := 1;
    j := from;
    while j < |html| && depth > 0
      invariant from <= j <= |html|
      invariant SkipFrom(m, html, from, 1) == SkipFrom(m, html, j, depth)
      decreases |html| - j
    {
      var nextOpen, nextClose := FindCi(html, m.open, j), FindCi(html, m.close, j);
      if nextOpen.Some? && (nextClose.None? || nextOpen.value < nextClose.value) {
        depth := depth + 1;
        j := nextOpen.value + |m.open|;
      } else if nextClose.Some? {
        depth := depth - 1;
        j := TagEnd(html, nextClose.value);
      } else {
        j := |html|;
      }
    }
  }

  // ----- On any text: the result is a subsequence -------------------------------------

  /** `a` is what remains of `s[i..]` after leaving some characters out. */
  predicate IsSubsequence(a: string, s: string, i: nat)
    requires i <= |s|
    decreases |s| - i
  {
    if a == "" then true
    else if i == |s| then false
    else if a[0] == s[i] then IsSubsequence(a[1..], s, i + 1)
    else IsSubsequence(a, s, i + 1)
  }

  lemma {:induction false} SubsequenceTail(a: string, s: string, i: nat)
    requires i <= |s| && a != "" && IsSubsequence(a, s, i)
    ensures IsSubsequence(a[1..], s, i)
    decreases |s| - i
  {
    if a[0] == s[i] {
      if |a| > 1 { SubsequenceTail(a[1..], s, i + 1); }
    } else {
      SubsequenceTail(a, s, i + 1);
      if |a| > 1 { SubsequenceTail(a[1..], s, i + 1); }
    }
  }

  /** Leaving out all of `s[i..j]`. */
  lemma {:induction false} SubsequenceDrop(a: string, s: string, i: nat, j: nat)
    requires i <= j <= |s| && IsSubsequence(a, s, j)
    ensures IsSubsequence(a, s, i)
    decreases j - i
  {
    if i < j {
      SubsequenceDrop(a, s, i + 1, j);
      if a != "" { SubsequenceTail(a, s, i + 1); }
    }
  }

  /** Keeping all of `s[i..j]`. */
  lemma {:induction false} SubsequenceKeep(a: string, s: string, i: nat, j: nat)
    requires i <= j <= |s| && IsSubsequence(a, s, j)
    ensures IsSubsequence(s[i..j] + a, s, i)
    decreases j - i
  {
    if i == j {
      assert s[i..j] + a == a;
    } else {
      SubsequenceKeep(a, s, i + 1, j);
      assert (s[i..j] + a)[1..] == s[i + 1..j] + a;
    }
  }

  lemma SubsequenceSelf(s: string, i: nat)
    requires i <= |s|
    ensures IsSubsequence(s[i..], s, i)
  {
    SubsequenceKeep("", s, i, |s|);
    assert s[i..|s|] + "" == s[i..];
  }

  /** Whatever the text, stripping only leaves characters out. */
  lemma {:induction false} StripIsSubsequence(m: Marks, s: string, i: nat)
    requires m.open != "" && i <= |s|
    ensures IsSubsequence(StripFrom(m, s, i), s, i)
    decreases |s| - i
  {
    hide FindCi, Find, SkipFrom, IsSubsequence;
    match FindCi(s, m.open, i)
    case None =>
      SubsequenceSelf(s, i);
    case Some(o) =>
      var g := Find(s, '>', o);
      if g == |s| {
        SubsequenceSelf(s, i);
      } else {
        if !m.isReply(s[o..g + 1]) {
          StripIsSubsequence(m, s, g + 1);
          SubsequenceKeep(StripFrom(m, s, g + 1), s, i, g + 1);
        } else {
          var j := SkipFrom(m, s, g + 1, 1);
          StripIsSubsequence(m, s, j);
          SubsequenceDrop(StripFrom(m, s, j), s, o, j);
          SubsequenceKeep(StripFrom(m, s, j), s, i, o);
        }
      }
  }

  // ----- On well-nested text: whole subtrees go ---------------------------------------

  /** Text and blockquotes: `text`, then a quote with its tags, then the rest. */
  datatype Forest =
    | Tail(text: string)
    | Quote(text: string, open: string, inner: Forest, close: string, rest: Forest)

  function Render(f: Forest): string {
    match f
    case Tail(t) => t
    case Quote(t, o, inner, c, rest) => t + (o + (Render(inner) + (c + Render(rest))))
  }

  /** `p` starts nowhere in `s[i..e]`. */
  ghost predicate Absent(s: string, p: string, i: nat, e: nat) {
    forall k: nat | i <= k < e :: !AtCi(s, k, p)
  }

  /** Free of both marks. */
  ghost predicate IsPlain(m: Marks, t: string) {
    Absent(t, m.open, 0, |t|) && Absent(t, m.close, 0, |t|)
  }

  ghost predicate WellNested(m: Marks, f: Forest) {
    match f
    case Tail(t) => IsPlain(m, t)
    case Quote(t, o, inner, c, rest) =>
      && IsPlain(m, t)
      && IsTag(o) && AtCi(o, 0, m.open)
      && IsTag(c) && AtCi(c, 0, m.close)
      && WellNested(m, inner) && WellNested(m, rest)
  }

  function Prepend(t: string, f: Forest): Forest {
    f.(text := t + f.text)
  }

  /** Every reply quote deleted, with all that is inside it. */
  function WithoutReplies(m: Marks, f: Forest): Forest {
    match f
    case Tail(_) => f
    case Quote(t, o, inner, c, rest) =>
      if m.isReply(o) then Prepend(t, WithoutReplies(m, rest))
      else Quote(t, o, WithoutReplies(m, inner), c, WithoutReplies(m, rest))
  }

  lemma RenderPrepend(t: string, f: Forest)
    ensures Render(Prepend(t, f)) == t + Render(f)
  {
  }

  // ----- Matches inside a longer text ---------------------------------------------------

  lemma {:induction false} FindSkipsAbsent(s: string, p: string, i: nat, e: nat)
    requires i <= e <= |s| && Absent(s, p, i, e) && p != ""
    ensures FindCi(s, p, i) == FindCi(s, p, e)
    decreases e - i
  {
    if i < e && i + |p| <= |s| { FindSkipsAbsent(s, p, i + 1, e); }
  }

  /** Plain text before a tag or the end hides no mark, not even one that runs into the tag. */
  lemma PlainIsAbsent(s: string, i: nat, t: string, p: string)
    requires At(s, i, t) && Absent(t, p, 0, |t|)
    requires p != "" && '<' !in p[1..]
    requires i + |t| == |s| || s[i + |t|] == '<'
    ensures Absent(s, p, i, i + |t|)
  {
    forall k: nat | i <= k < i + |t| ensures !AtCi(s, k, p) {
      if k - i + |p| <= |t| {
        AtCiWithin(s, i, t, k - i, p);
      } else if AtCi(s, k, p) {
        MatchLacks(s, k + 1, p[1..], '<', i + |t|);
      }
    }
  }

  /** Inside a tag, after its `<`, nothing starts with `<`. */
  lemma TagIsAbsent(s: string, i: nat, tag: string, p: string, k: nat)
    requires At(s, i, tag) && IsTag(tag) && 1 <= k <= |tag| && p != "" && p[0] == '<'
    ensures Absent(s, p, i + k, i + |tag|)
  {
    forall x: nat | i + k <= x < i + |tag| ensures !AtCi(s, x, p) {
      assert s[x] == s[i..i + |tag|][x - i] == tag[1..][x - i - 1];
    }
  }

  // ----- Skipping and stripping a region ------------------------------------------------

  lemma SkipAcross(m: Marks, s: string, i: nat, e: nat, d: nat)
    requires Sound(m) && i <= e <= |s| && d > 0
    requires Absent(s, m.open, i, e) && Absent(s, m.close, i, e)
    ensures SkipFrom(m, s, i, d) == SkipFrom(m, s, e, d)
  {
    FindSkipsAbsent(s, m.open, i, e);
    FindSkipsAbsent(s, m.close, i, e);
  }

  lemma StripAcross(m: Marks, s: string, i: nat, e: nat)
    requires Sound(m) && i <= e <= |s| && Absent(s, m.open, i, e)
    ensures StripFrom(m, s, i) == s[i..e] + StripFrom(m, s, e)
  {
    hide AtCi, FindCi, Find, Absent, SkipFrom, StripFrom;
    FindSkipsAbsent(s, m.open, i, e);
    StripHere(m, s, i);
    StripStep(m, s, e, s[i..e]);
    Pieces(s, i, e, |s|);
    if FindCi(s, m.open, i).Some? {
      var o := FindCi(s, m.open, i).value;
      Pieces(s, i, e, o);
      var g := Find(s, '>', o);
      if g < |s| { Pieces(s, i, e, g + 1); }
    }
  }

  lemma Pieces(s: string, i: nat, e: nat, o: nat)
    requires i <= e <= o <= |s|
    ensures s[i..o] == s[i..e] + s[e..o]
    ensures o == |s| ==> s[i..] == s[i..e] + s[e..]
  {
  }

  lemma StripHere(m: Marks, s: string, i: nat)
    requires m.open != "" && i <= |s|
    ensures
      var found := FindCi(s, m.open, i);
      StripFrom(m, s, i) ==
        if found.None? || Find(s, '>', found.value) == |s| then s[i..]
        else
          var o, q := found.value, Find(s, '>', found.value) + 1;
          if m.isReply(s[o..q]) then s[i..o] + StripFrom(m, s, SkipFrom(m, s, q, 1)) else s[i..q] + StripFrom(m, s, q)
  {
    hide FindCi, Find, SkipFrom;
  }

  lemma DistinctMarks(m: Marks, s: string, p: nat)
    requires Sound(m)
    ensures !(AtCi(s, p, m.open) && AtCi(s, p, m.close))
  {
    hide AtCi;
    if AtCi(s, p, m.open) { FirstTwoAt(s, p, m.open); }
    if AtCi(s, p, m.close) { FirstTwoAt(s, p, m.close); }
  }

  lemma FindCiHere(s: string, p: nat, needle: string)
    requires AtCi(s, p, needle)
    ensures FindCi(s, needle, p) == Some(p)
  {
  }

  lemma FindCiLater(s: string, p: nat, needle: string)
    requires !AtCi(s, p, needle)
    ensures FindCi(s, needle, p) != Some(p)
  {
  }

  lemma SkipMark(m: Marks, s: string, p: nat, d: nat)
    requires Sound(m) && AtCi(s, p, m.open) && d > 0
    ensures SkipFrom(m, s, p, d) == SkipFrom(m, s, p + |m.open|, d + 1)
  {
    hide AtCi, FindCi;
    DistinctMarks(m, s, p);
    FindCiHere(s, p, m.open);
    FindCiLater(s, p, m.close);
  }

  /** An open tag one deeper. */
  lemma SkipOpen(m: Marks, s: string, p: nat, o: string, d: nat)
    requires Sound(m) && At(s, p, o) && IsTag(o) && AtCi(o, 0, m.open) && d > 0
    ensures SkipFrom(m, s, p, d) == SkipFrom(m, s, p + |o|, d + 1)
  {
    hide AtCi, IsTag, Absent, SkipFrom;
    assert |m.open| <= |o|;
    AtCiWithin(s, p, o, 0, m.open);
    SkipMark(m, s, p, d);
    TagIsAbsent(s, p, o, m.open, |m.open|);
    TagIsAbsent(s, p, o, m.close, |m.open|);
    SkipAcross(m, s, p + |m.open|, p + |o|, d + 1);
  }

  /** A close tag one shallower. */
  lemma SkipClose(m: Marks, s: string, p: nat, c: string, d: nat)
    requires Sound(m) && At(s, p, c) && IsTag(c) && AtCi(c, 0, m.close) && d > 0
    ensures SkipFrom(m, s, p, d) == SkipFrom(m, s, p + |c|, d - 1)
  {
    hide AtCi, FindCi;
    AtCiWithin(s, p, c, 0, m.close);
    DistinctMarks(m, s, p);
    FindCiHere(s, p, m.close);
    FindCiLater(s, p, m.open);
    TagEndsAt(s, p, c, 0);
  }

  /** Where the inside, the close tag and the rest of a quote printed at `i` begin. */
  function InnerAt(i: nat, f: Forest): nat
    requires f.Quote?
  {
    i + |f.text| + |f.open|
  }

  function CloseAt(i: nat, f: Forest): nat
    requires f.Quote?
  {
    InnerAt(i, f) + |Render(f.inner)|
  }

  function RestAt(i: nat, f: Forest): nat
    requires f.Quote?
  {
    CloseAt(i, f) + |f.close|
  }

  /** `s` holds the rendering of `f` at `i`, and a tag or the end follows it. */
  predicate Holds(s: string, i: nat, f: Forest) {
    At(s, i, Render(f)) && (i + |Render(f)| == |s| || s[i + |Render(f)|] == '<')
  }

  lemma PartsHeld(s: string, i: nat, f: Forest)
    requires f.Quote? && Holds(s, i, f)
    ensures RestAt(i, f) + |Render(f.rest)| == i + |Render(f)| <= |s|
    ensures At(s, i, f.text) && At(s, i + |f.text|, f.open) && At(s, InnerAt(i, f), Render(f.inner))
    ensures At(s, CloseAt(i, f), f.close) && At(s, RestAt(i, f), Render(f.rest))
  {
    var z := f.close + Render(f.rest);
    var y := Render(f.inner) + z;
    var x := f.open + y;
    assert Render(f) == f.text + x && i + |Render(f)| <= |s|;
    hide Render, At, Holds;
    AtSplit(s, i, f.text, x);
    AtSplit(s, i + |f.text|, f.open, y);
    AtSplit(s, InnerAt(i, f), Render(f.inner), z);
    AtSplit(s, CloseAt(i, f), f.close, Render(f.rest));
  }

  lemma SubforestsHeld(m: Marks, s: string, i: nat, f: Forest)
    requires f.Quote? && WellNested(m, f) && Holds(s, i, f)
    ensures RestAt(i, f) + |Render(f.rest)| == i + |Render(f)|
    ensures Holds(s, InnerAt(i, f), f.inner) && Holds(s, RestAt(i, f), f.rest)
  {
    PartsHeld(s, i, f);
    FirstAt(s, CloseAt(i, f), f.close);
  }

  lemma SkipEntry(m: Marks, s: string, i: nat, f: Forest, d: nat)
    requires Sound(m) && f.Quote? && WellNested(m, f) && Holds(s, i, f) && d > 0
    ensures InnerAt(i, f) <= |s| && SkipFrom(m, s, i, d) == SkipFrom(m, s, InnerAt(i, f), d + 1)
  {
    hide SkipFrom;
    PartsHeld(s, i, f);
    FirstAt(s, i + |f.text|, f.open);
    SkipText(m, s, i, f.text, d);
    SkipOpen(m, s, i + |f.text|, f.open, d);
  }

  lemma SkipExit(m: Marks, s: string, i: nat, f: Forest, d: nat)
    requires Sound(m) && f.Quote? && WellNested(m, f) && Holds(s, i, f) && d > 0
    ensures RestAt(i, f) <= |s| && SkipFrom(m, s, CloseAt(i, f), d) == SkipFrom(m, s, RestAt(i, f), d - 1)
  {
    hide SkipFrom;
    var p := CloseAt(i, f);
    assert At(s, p, f.close) by { PartsHeld(s, i, f); }
    hide At, Render, Holds, IsPlain, AtCi, IsTag;
    SkipClose(m, s, p, f.close, d);
    assert RestAt(i, f) == p + |f.close|;
  }

  /** Inside a reply, a whole well-nested forest is passed over at the same depth. */
  lemma {:induction false} SkipForest(m: Marks, s: string, i: nat, f: Forest, d: nat)
    requires Sound(m) && WellNested(m, f) && d > 0 && Holds(s, i, f)
    ensures SkipFrom(m, s, i, d) == SkipFrom(m, s, i + |Render(f)|, d)
    decreases f
  {
    hide SkipFrom;
    if f.Tail? {
      SkipText(m, s, i, f.text, d);
    } else {
      SubforestsHeld(m, s, i, f);
      SkipEntry(m, s, i, f, d);
      SkipForest(m, s, InnerAt(i, f), f.inner, d + 1);
      SkipExit(m, s, i, f, d + 1);
      SkipForest(m, s, RestAt(i, f), f.rest, d);
    }
  }

  lemma SkipNothing(m: Marks, s: string, j: nat)
    requires Sound(m) && j <= |s|
    ensures SkipFrom(m, s, j, 0) == j
  {
  }

  lemma SkipText(m: Marks, s: string, i: nat, t: string, d: nat)
    requires Sound(m) && IsPlain(m, t) && d > 0 && At(s, i, t)
    requires i + |t| == |s| || s[i + |t|] == '<'
    ensures SkipFrom(m, s, i, d) == SkipFrom(m, s, i + |t|, d)
  {
    PlainIsAbsent(s, i, t, m.open);
    PlainIsAbsent(s, i, t, m.close);
    SkipAcross(m, s, i, i + |t|, d);
  }

  lemma StripText(m: Marks, s: string, i: nat, t: string)
    requires Sound(m) && IsPlain(m, t) && At(s, i, t)
    requires i + |t| == |s| || s[i + |t|] == '<'
    ensures StripFrom(m, s, i) == t + StripFrom(m, s, i + |t|)
  {
    hide StripFrom, AtCi;
    PlainIsAbsent(s, i, t, m.open);
    StripAcross(m, s, i, i + |t|);
  }

  /** At an open tag: a reply is skipped from inside, an editorial tag is kept. */
  lemma StripOpen(m: Marks, s: string, p: nat, o: string)
    requires Sound(m) && At(s, p, o) && IsTag(o) && AtCi(o, 0, m.open)
    ensures StripFrom(m, s, p) ==
      if m.isReply(o) then StripFrom(m, s, SkipFrom(m, s, p + |o|, 1)) else o + StripFrom(m, s, p + |o|)
  {
    hide StripFrom, AtCi, IsTag;
    assert |m.open| <= |o|;
    AtCiWithin(s, p, o, 0, m.open);
    TagEndsAt(s, p, o, 0);
    StripMark(m, s, p);
  }

  lemma StripMark(m: Marks, s: string, p: nat)
    requires Sound(m) && AtCi(s, p, m.open) && Find(s, '>', p) < |s|
    ensures
      var q := Find(s, '>', p) + 1;
      StripFrom(m, s, p) ==
        if m.isReply(s[p..q]) then StripFrom(m, s, SkipFrom(m, s, q, 1)) else s[p..q] + StripFrom(m, s, q)
  {
    hide AtCi, FindCi, Find, SkipFrom, StripFrom;
    FindCiHere(s, p, m.open);
    assert p <= |s| by { FindCiIsInside(s, p, m.open); }
    StripHere(m, s, p);
    assert s[p..p] == "";
  }

  lemma FindCiIsInside(s: string, p: nat, needle: string)
    requires AtCi(s, p, needle)
    ensures p <= |s|
  {
  }

  lemma StripClose(m: Marks, s: string, p: nat, c: string)
    requires Sound(m) && At(s, p, c) && IsTag(c) && AtCi(c, 0, m.close)
    ensures StripFrom(m, s, p) == c + StripFrom(m, s, p + |c|)
  {
    hide FindCi, StripFrom, IsTag;
    AtCiWithin(s, p, c, 0, m.close);
    DistinctMarks(m, s, p);
    assert |c| >= 2;
    TagIsAbsent(s, p, c, m.open, 1);
    assert Absent(s, m.open, p, p + |c|);
    StripAcross(m, s, p, p + |c|);
  }

  lemma StripEntry(m: Marks, s: string, f: Forest, i: nat, p: nat, q: nat)
    requires Sound(m) && f.Quote? && WellNested(m, f) && At(s, i, f.text) && At(s, p, f.open)
    requires p == i + |f.text| && q == p + |f.open|
    ensures StripFrom(m, s, i) == f.text +
      if m.isReply(f.open) then StripFrom(m, s, SkipFrom(m, s, q, 1)) else f.open + StripFrom(m, s, q)
  {
    hide SkipFrom, StripFrom;
    FirstAt(s, p, f.open);
    StripText(m, s, i, f.text);
    StripOpen(m, s, p, f.open);
  }

  lemma StripTail(m: Marks, s: string, i: nat, f: Forest)
    requires Sound(m) && f.Tail? && WellNested(m, f) && Holds(s, i, f)
    ensures StripFrom(m, s, i) == Render(WithoutReplies(m, f)) + StripFrom(m, s, i + |Render(f)|)
  {
    hide StripFrom;
    StripText(m, s, i, f.text);
  }

  /** A kept quote, put together from what is stripped at each of its parts. */
  lemma JoinKept(m: Marks, f: Forest, atText: string, atInner: string, atClose: string, atRest: string, after: string)
    requires f.Quote? && !m.isReply(f.open)
    requires atText == f.text + (f.open + atInner) && atClose == f.close + atRest
    requires atInner == Render(WithoutReplies(m, f.inner)) + atClose
    requires atRest == Render(WithoutReplies(m, f.rest)) + after
    ensures atText == Render(WithoutReplies(m, f)) + after
  {
  }

  lemma JoinDropped(m: Marks, f: Forest, atText: string, atRest: string, after: string)
    requires f.Quote? && m.isReply(f.open)
    requires atText == f.text + atRest && atRest == Render(WithoutReplies(m, f.rest)) + after
    ensures atText == Render(WithoutReplies(m, f)) + after
  {
    RenderPrepend(f.text, WithoutReplies(m, f.rest));
  }

  lemma {:induction false} StripForest(m: Marks, s: string, i: nat, f: Forest)
    requires Sound(m) && WellNested(m, f) && Holds(s, i, f)
    ensures StripFrom(m, s, i) == Render(WithoutReplies(m, f)) + StripFrom(m, s, i + |Render(f)|)
    decreases f
  {
    hide SkipFrom, StripFrom, Render, WithoutReplies, Holds, IsPlain, AtCi, IsTag;
    if f.Tail? {
      StripTail(m, s, i, f);
    } else {
      var q, z, r := InnerAt(i, f), CloseAt(i, f), RestAt(i, f);
      SubforestsHeld(m, s, i, f);
      PartsHeld(s, i, f);
      hide At;
      StripEntry(m, s, f, i, i + |f.text|, q);
      StripForest(m, s, r, f.rest);
      if m.isReply(f.open) {
        SkipForest(m, s, q, f.inner, 1);
        SkipExit(m, s, i, f, 1);
        SkipNothing(m, s, r);
        JoinDropped(m, f, StripFrom(m, s, i), StripFrom(m, s, r), StripFrom(m, s, i + |Render(f)|));
      } else {
        StripForest(m, s, q, f.inner);
        StripClose(m, s, z, f.close);
        JoinKept(m, f, StripFrom(m, s, i), StripFrom(m, s, q), StripFrom(m, s, z), StripFrom(m, s, r),
                 StripFrom(m, s, i + |Render(f)|));
      }
    }
  }

  /** Stripping the rendering of a forest renders the forest without its reply subtrees. */
  lemma StripDeletesReplySubtrees(m: Marks, f: Forest)
    requires Sound(m) && WellNested(m, f)
    ensures StripFrom(m, Render(f), 0) == Render(WithoutReplies(m, f))
  {
    StripForest(m, Render(f), 0, f);
  }

  // ----- The marks of the source -----------------------------------------------------------

  lemma BlockquoteIsSound()
    ensures Sound(BLOCKQUOTE)
  {
  }

  method StripReplyBlockquotes(html: string) returns (out: string)
    ensures out == StripFrom(BLOCKQUOTE, html, 0)
    ensures IsSubsequence(out, html, 0)
    ensures forall f: Forest | WellNested(BLOCKQUOTE, f) && html == Render(f) ::
      out == Render(WithoutReplies(BLOCKQUOTE, f))
  {
    BlockquoteIsSound();
    out := StripReplyQuotes(BLOCKQUOTE, html);
    StripIsSubsequence(BLOCKQUOTE, html, 0);
    forall f: Forest | WellNested(BLOCKQUOTE, f) && html == Render(f)
      ensures out == Render(WithoutReplies(BLOCKQUOTE, f))
    {
      StripDeletesReplySubtrees(BLOCKQUOTE, f);
    }
  }
}
