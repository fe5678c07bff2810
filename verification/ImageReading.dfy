/**
 * What the scan for structural images and the tag reader of src/services/content.rs
 * see: the pieces a text is made of, and the attributes an image tag is written with.
 */
module ImageReading {
  import opened Wrappers
  import opened Text
  import opened TagReading
  import opened ImageChrome

  // ----- The pieces of a text ------------------------------------------------------------------

  /** A whitespace character or no-break entity, a character that shows, or a tag. */
  datatype Piece = Unit(unit: string) | Letter(letter: char) | Tag(tag: string)

  function Shown(p: Piece): string {
    match p
    case Unit(t) => t
    case Letter(c) => [c]
    case Tag(t) => t
  }

  function Render(ps: seq<Piece>): string {
    if ps == [] then "" else Shown(ps[0]) + Render(ps[1..])
  }

  /** A tag ends at its first `>`; without one it is the last piece. */
  predicate IsTagPiece(t: string, last: bool) {
    t != "" && t[0] == '<' && if '>' in t then Find(t, '>', 0) == |t| - 1 else last
  }

  predicate IsUnit(t: string) {
    t in ENTITIES || (|t| == 1 && IsWhitespace(t[0]))
  }

  /** A visible character, before `rest`: no entity starts with it. */
  predicate IsLetter(c: char, rest: string) {
    c != '<' && !IsWhitespace(c) && forall e :: e in ENTITIES ==> !(e <= [c] + rest)
  }

  predicate Written(ps: seq<Piece>) {
    ps == [] || (Written(ps[1..]) &&
      match ps[0]
      case Unit(t) => IsUnit(t)
      case Letter(c) => IsLetter(c, Render(ps[1..]))
      case Tag(t) => IsTagPiece(t, ps[1..] == []))
  }

  /** A tag counts by its name, in any case. */
  ghost function KindOf(p: Piece): Kind {
    match p
    case Unit(_) => Blank
    case Letter(_) => Visible
    case Tag(t) =>
      if IsNamed(t, "img") then Img
      else if IsNamed(t, "/a") then LinkClose
      else if IsNamed(t, "a") then LinkOpen
      else if IsNamed(t, "br") then Break
      else if IsNamed(t, "li") then Item
      else Other
  }

  /** The tokens of the pieces, the first of which stands at `at`. */
  ghost function TokensOf(ps: seq<Piece>, at: nat): seq<Token> {
    if ps == [] then [] else [Token(KindOf(ps[0]), at)] + TokensOf(ps[1..], at + |Shown(ps[0])|)
  }

  // ----- From one place of the text on ------------------------------------------------------------

  lemma StartsTagShift(s: string, i: nat, name: string)
    requires i <= |s|
    ensures StartsTag(s, i, name) <==> StartsTag(s[i..], 0, name)
  {
    AtCiShift(s, i, 0, name);
    hide AtCi;
  }

  lemma {:induction false} FindShift(s: string, i: nat, k: nat, c: char)
    requires i + k <= |s|
    ensures Find(s, c, i + k) == i + Find(s[i..], c, k)
    decreases |s| - k
  {
    if i + k < |s| && s[i + k] != c { FindShift(s, i, k + 1, c); }
  }

  lemma ScanShift(s: string, i: nat)
    requires i < |s|
    ensures KindAt(s, i) == KindAt(s[i..], 0) && NextAt(s, i) == i + NextAt(s[i..], 0)
  {
    BlankLenShift(s, i);
    FindShift(s, i, 0, '>');
    StartsTagShift(s, i, "<img");
    StartsTagShift(s, i, "</a");
    StartsTagShift(s, i, "<a");
    StartsTagShift(s, i, "<br");
    StartsTagShift(s, i, "<li");
    hide BlankLen, Find, StartsTag;
  }

  // ----- One piece ---------------------------------------------------------------------------------

  lemma UnitRead(t: string, rest: string)
    requires IsUnit(t)
    ensures BlankLen(t + rest, 0) == |t| && t != "" && (t + rest)[0] != '<'
  {
    var s := t + rest;
    assert s[0] == t[0];
    if t in ENTITIES {
      var e :| 0 <= e < 4 && ENTITIES[e] == t;
      assert t[0] == '&' && |t| == 6 && s[0..6] == t;
    }
  }

  lemma AtStartIsPrefix(s: string, e: string)
    ensures At(s, 0, e) <==> e <= s
  {
  }

  lemma LetterRead(c: char, rest: string)
    requires IsLetter(c, rest)
    ensures BlankLen([c] + rest, 0) == 0
  {
    var s := [c] + rest;
    forall e: nat | e < 4 ensures !At(s, 0, ENTITIES[e]) {
      assert ENTITIES[e] in ENTITIES;
      AtStartIsPrefix(s, ENTITIES[e]);
    }
  }

  lemma {:induction false} FindBefore(t: string, rest: string, k: nat, c: char)
    requires k <= |t|
    ensures Find(t, c, k) < |t| ==> Find(t + rest, c, k) == Find(t, c, k)
    ensures rest == "" ==> Find(t + rest, c, k) == Find(t, c, k)
    ensures Find(t, c, k) < |t| <==> c in t[k..]
    ensures Find(t, c, k) < |t| ==> t[Find(t, c, k)] == c
    decreases |t| - k
  {
    assert rest == "" ==> t + rest == t;
    if k < |t| && t[k] != c {
      FindBefore(t, rest, k + 1, c);
      assert t[k..] == [t[k]] + t[k + 1..];
    }
  }

  /** A tag is named by its own text, whatever follows. */
  lemma NameBefore(t: string, rest: string, name: string)
    requires IsTagPiece(t, rest == "") && '>' !in name
    ensures StartsTag(t + rest, 0, "<" + name) <==> IsNamed(t, name)
  {
    var s, p := t + rest, "<" + name;
    StartsTagIff(t, name);
    FindBefore(t, rest, 0, '>');
    assert t[0..] == t;
    AtCiIff(s, 0, p);
    AtCiIff(t, 0, p);
    hide AtCi, IsNamed;
    if rest == "" {
      assert s == t;
    } else {
      assert '>' in t && t[|t| - 1] == '>';
      hide Find, SameIgnoringCase;
      assert |p| <= |t| ==> s[0..|p|] == t[0..|p|];
      if |p| <= |t| - 1 {
        assert s[|p|] == t[|p|];
      } else if |p| <= |s| && SameIgnoringCase(s[0..|p|], p) {
        LacksClose(s[0..|p|], p, |t| - 1);
      }
    }
  }

  lemma LacksClose(t: string, p: string, k: nat)
    requires SameIgnoringCase(t, p) && k < |t| && t[k] == '>'
    ensures '>' in p
  {
    assert Lower(t[k]) == p[k];
  }

  lemma TagRead(t: string, rest: string)
    requires IsTagPiece(t, rest == "")
    ensures KindAt(t + rest, 0) == KindOf(Tag(t)) && NextAt(t + rest, 0) == |t|
  {
    FindBefore(t, rest, 0, '>');
    assert t[0..] == t;
    NameBefore(t, rest, "img");
    NameBefore(t, rest, "/a");
    NameBefore(t, rest, "a");
    NameBefore(t, rest, "br");
    NameBefore(t, rest, "li");
    hide Find, StartsTag, IsNamed;
    assert "<" + "img" == "<img" && "<" + "/a" == "</a" && "<" + "a" == "<a" && "<" + "br" == "<br" &&
      "<" + "li" == "<li";
  }

  lemma PieceRead(p: Piece, rest: string)
    requires p.Unit? ==> IsUnit(p.unit)
    requires p.Letter? ==> IsLetter(p.letter, rest)
    requires p.Tag? ==> IsTagPiece(p.tag, rest == "")
    ensures Shown(p) != "" && KindAt(Shown(p) + rest, 0) == KindOf(p) && NextAt(Shown(p) + rest, 0) == |Shown(p)|
  {
    match p
    case Unit(t) => UnitRead(t, rest);
    case Letter(c) => LetterRead(c, rest);
    case Tag(t) => TagRead(t, rest);
  }

  // ----- Main result ---------------------------------------------------------------------------------

  /** The scan takes a written text apart into its pieces, each with the kind its own text has. */
  lemma {:induction false} TokensAreThePieces(ps: seq<Piece>, s: string, i: nat)
    requires Written(ps) && i <= |s| && s[i..] == Render(ps)
    ensures Tokens(s, i) == TokensOf(ps, i)
    decreases |ps|
  {
    hide *;
    if ps == [] {
      NoPieces(s, i);
    } else {
      FirstPiece(ps, s, i);
      TokensAreThePieces(ps[1..], s, NextAt(s, i));
      OneMoreToken(ps, s, i);
    }
  }

  lemma NoPieces(s: string, i: nat)
    requires i <= |s| && s[i..] == Render([])
    ensures Tokens(s, i) == TokensOf([], i)
  {
    assert i == |s|;
  }

  /** The first piece is the first token, and behind it stand the others. */
  lemma FirstPiece(ps: seq<Piece>, s: string, i: nat)
    requires ps != [] && Written(ps) && i <= |s| && s[i..] == Render(ps)
    ensures
      var j := i + |Shown(ps[0])|;
      && i < j <= |s| && s[j..] == Render(ps[1..]) && Written(ps[1..])
      && KindAt(s, i) == KindOf(ps[0]) && NextAt(s, i) == j
  {
    hide KindAt, NextAt, KindOf;
    var p, rest := ps[0], Render(ps[1..]);
    PieceRead(p, rest);
    hide Written;
    ScanShift(s, i);
    hide Render;
    assert s[i + |Shown(p)|..] == s[i..][|Shown(p)|..];
  }

  lemma OneMoreToken(ps: seq<Piece>, s: string, i: nat)
    requires i < |s| && ps != [] && KindAt(s, i) == KindOf(ps[0]) && NextAt(s, i) == i + |Shown(ps[0])|
    requires Tokens(s, NextAt(s, i)) == TokensOf(ps[1..], NextAt(s, i))
    ensures Tokens(s, i) == TokensOf(ps, i)
  {
    hide KindAt, NextAt, KindOf, Shown;
  }

  /** Every text is written in pieces. */
  lemma {:induction false} EveryTextIsWritten(s: string) returns (ps: seq<Piece>)
    ensures Written(ps) && Render(ps) == s
    decreases |s|
  {
    if s == "" {
      ps := [];
    } else {
      var n := NextAt(s, 0);
      var t, rest := s[..n], s[n..];
      var more := EveryTextIsWritten(rest);
      assert s == t + rest;
      var p := PieceAt(s);
      ps := [p] + more;
      assert ps[1..] == more;
    }
  }

  lemma PieceAt(s: string) returns (p: Piece)
    requires s != ""
    ensures Shown(p) == s[..NextAt(s, 0)]
    ensures p.Unit? ==> IsUnit(p.unit)
    ensures p.Letter? ==> IsLetter(p.letter, s[NextAt(s, 0)..])
    ensures p.Tag? ==> IsTagPiece(p.tag, s[NextAt(s, 0)..] == "")
  {
    var n := NextAt(s, 0);
    var t, rest := s[..n], s[n..];
    assert s == t + rest;
    if s[0] == '<' {
      p := Tag(t);
      TagPieceAt(s);
    } else if BlankLen(s, 0) > 0 {
      p := Unit(t);
      UnitAt(s);
    } else {
      p := Letter(s[0]);
      LetterAt(s);
    }
  }

  lemma TagPieceAt(s: string)
    requires s != "" && s[0] == '<'
    ensures IsTagPiece(s[..NextAt(s, 0)], s[NextAt(s, 0)..] == "")
  {
    var n := NextAt(s, 0);
    var t, rest := s[..n], s[n..];
    assert s == t + rest;
    FindBefore(s, "", 0, '>');
    FindBefore(t, rest, 0, '>');
    assert t[0..] == t && s[0..] == s;
    assert '>' in t ==> Find(t, '>', 0) == Find(s, '>', 0);
    assert Find(s, '>', 0) < |s| ==> t[|t| - 1] == '>';
  }

  lemma EntityAt(s: string, e: nat)
    requires e < 4 && At(s, 0, ENTITIES[e])
    ensures s[..6] in ENTITIES
  {
    assert |ENTITIES[e]| == 6 && s[..6] == ENTITIES[e];
  }

  lemma UnitAt(s: string)
    requires BlankLen(s, 0) > 0
    ensures IsUnit(s[..BlankLen(s, 0)])
  {
    if !IsWhitespace(s[0]) {
      if At(s, 0, ENTITIES[0]) {
        EntityAt(s, 0);
      } else if At(s, 0, ENTITIES[1]) {
        EntityAt(s, 1);
      } else if At(s, 0, ENTITIES[2]) {
        EntityAt(s, 2);
      } else {
        EntityAt(s, 3);
      }
    }
  }

  lemma LetterAt(s: string)
    requires s != "" && s[0] != '<' && BlankLen(s, 0) == 0
    ensures IsLetter(s[0], s[1..])
  {
    assert [s[0]] + s[1..] == s;
    forall e | e in ENTITIES ensures !(e <= s) {
      AtStartIsPrefix(s, e);
    }
  }
}
