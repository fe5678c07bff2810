/**
 * Texts written as image tags with other text around them, and what the two
 * image passes of src/services/content.rs make of them, place by place.
 */
module ImagePlaces {
  import opened Wrappers
  import opened Text
  import opened TagReading
  import ImageReading
  import opened ImageMarkers

  /** An image tag and the text before it. */
  datatype Place = Place(before: string, tag: string)

  function Written(places: seq<Place>, tail: string): string {
    if places == [] then tail else places[0].before + (places[0].tag + Written(places[1..], tail))
  }

  /** The texts hold no image tag, and each tag starts as one and ends at its first `>` or, without one, the text. */
  ghost predicate ArePlaces(places: seq<Place>, tail: string) {
    if places == [] then !Holds(tail, "<img") else
    var p := places[0];
    && !Holds(p.before, "<img") && AtCi(p.tag, 0, "<img")
    && ImageReading.IsTagPiece(p.tag, Written(places[1..], tail) == "")
    && ArePlaces(places[1..], tail)
  }

  /** What the tag of the first of the places, which starts at `at`, means. */
  function Meaning(p: Place, chrome: set<nat>, at: nat): Option<RemoteImg> {
    RemoteAt(p.tag, at + |p.before| in chrome)
  }

  /** The remote images among the places, in order. */
  function Images(places: seq<Place>, chrome: set<nat>, at: nat): seq<RemoteImg> {
    if places == [] then [] else
    var p := places[0];
    var r := Meaning(p, chrome, at);
    (if r.Some? then [r.value] else []) + Images(places[1..], chrome, at + |p.before| + |p.tag|)
  }

  /** The texts with a marker for each content image between them. */
  function Marked(places: seq<Place>, tail: string, chrome: set<nat>, at: nat): string {
    if places == [] then tail else
    var p := places[0];
    p.before + MarkFor(Meaning(p, chrome, at)) + Marked(places[1..], tail, chrome, at + |p.before| + |p.tag|)
  }

  // ----- Finding the first place -------------------------------------------------------------------

  /** No tag starts in a text that holds none, whatever tag follows. */
  lemma NotBefore(a: string, b: string, j: nat)
    requires !Holds(a, "<img") && j < |a| && b != "" && b[0] == '<'
    ensures !AtCi(a + b, j, "<img")
  {
    FoundIff(a, "<img");
    FindsFirst(a, "<img", 0);
    hide FindCi, Holds, AtCi;
    assert (a + b)[|a|] == '<';
    if j + 4 <= |a| {
      MatchInFront(a, b, j, "<img");
    } else {
      NotAcross(a + b, j, |a|);
    }
  }

  lemma NotAcross(s: string, j: nat, x: nat)
    requires j < x < j + 4 && x < |s| && s[x] == '<'
    ensures !AtCi(s, j, "<img")
  {
    hide AtCi;
    if AtCi(s, j, "<img") {
      NameBehindAngle(s, j);
      MatchLacks(s, j + 1, "img", '<', x);
    }
  }

  lemma NameBehindAngle(s: string, j: nat)
    requires AtCi(s, j, "<img")
    ensures AtCi(s, j + 1, "img")
  {
    assert "<img"[1..] == "img";
  }

  lemma FirstTag(s: string, i: nat, a: string, tag: string, rest: string)
    requires i <= |s| && s[i..] == a + (tag + rest)
    requires !Holds(a, "<img") && AtCi(tag, 0, "<img") && ImageReading.IsTagPiece(tag, rest == "")
    ensures FindCi(s, "<img", i) == Some(i + |a|) && i + |a| < |s| && TagEnd(s, i + |a|) == i + |a| + |tag|
    ensures s[i..i + |a|] == a && s[i + |a|..i + |a| + |tag|] == tag && s[i + |a| + |tag|..] == rest
  {
    hide *;
    var k := i + |a|;
    Parts(s, i, a, tag + rest);
    Parts(s, k, tag, rest);
    StartsHere(tag, rest);
    StartsIn(s, k, tag, rest);
    TagEndsHere(s, k, tag, rest);
    FindsTag(s, i, k, a, tag + rest);
  }

  lemma Parts(s: string, i: nat, a: string, b: string)
    requires i <= |s| && s[i..] == a + b
    ensures i + |a| <= |s| && s[i..i + |a|] == a && s[i + |a|..] == b
  {
    assert s[i..][..|a|] == a && s[i..][|a|..] == b;
  }

  lemma StartsIn(s: string, k: nat, tag: string, rest: string)
    requires k <= |s| && s[k..] == tag + rest && AtCi(tag + rest, 0, "<img") && ImageReading.IsTagPiece(tag, rest == "")
    ensures k < |s| && AtCi(s, k, "<img") && tag + rest != "" && (tag + rest)[0] == '<'
  {
    AtCiShift(s, k, 0, "<img");
    hide AtCi;
  }

  lemma FindsTag(s: string, i: nat, k: nat, a: string, b: string)
    requires i <= k < |s| && s[i..] == a + b && k == i + |a| && AtCi(s, k, "<img")
    requires !Holds(a, "<img") && b != "" && b[0] == '<'
    ensures FindCi(s, "<img", i) == Some(k)
  {
    FindsFirst(s, "<img", i);
    hide FindCi, AtCi, Holds;
    var r := FindCi(s, "<img", i);
    assert r.Some? && r.value <= k;
    if r.value < k {
      AtCiShift(s, i, r.value - i, "<img");
      NotBefore(a, b, r.value - i);
    }
  }

  lemma StartsHere(tag: string, rest: string)
    requires AtCi(tag, 0, "<img")
    ensures AtCi(tag + rest, 0, "<img") && tag != ""
  {
    hide AtCi;
    AtCiIff(tag, 0, "<img");
    MatchInFront(tag, rest, 0, "<img");
  }

  lemma TagEndsHere(s: string, k: nat, tag: string, rest: string)
    requires k < |s| && s[k..] == tag + rest && ImageReading.IsTagPiece(tag, rest == "")
    ensures TagEnd(s, k) == k + |tag|
  {
    ImageReading.FindShift(s, k, 0, '>');
    ImageReading.FindBefore(tag, rest, 0, '>');
    assert tag[0..] == tag;
    hide Find;
  }

  // ----- Main result --------------------------------------------------------------------------------

  /** Exactly the remote images among the tags are found, and only the tags are replaced. */
  lemma {:induction false} ImagesInPlace(places: seq<Place>, tail: string, html: string, chrome: set<nat>, i: nat)
    requires ArePlaces(places, tail) && i <= |html| && html[i..] == Written(places, tail)
    ensures Remotes(html, ReadTag(html, chrome), i) == Images(places, chrome, i)
    ensures Placed(html, ReadTag(html, chrome), i) == Marked(places, tail, chrome, i)
    decreases |places|
  {
    hide *;
    if places == [] {
      NoPlaces(tail, html, chrome, i);
    } else {
      var p := places[0];
      var start := i + |p.before|;
      FirstPlace(places, tail, html, i);
      ImagesInPlace(places[1..], tail, html, chrome, start + |p.tag|);
      OnePlace(places, tail, html, chrome, i, p, start, start + |p.tag|);
    }
  }

  lemma NoPlaces(tail: string, html: string, chrome: set<nat>, i: nat)
    requires ArePlaces([], tail) && i <= |html| && html[i..] == Written([], tail)
    ensures Remotes(html, ReadTag(html, chrome), i) == Images([], chrome, i)
    ensures Placed(html, ReadTag(html, chrome), i) == Marked([], tail, chrome, i)
  {
    FoundIff(tail, "<img");
    NowhereBehind(html, i);
    hide FindCi;
  }

  lemma FirstPlace(places: seq<Place>, tail: string, html: string, i: nat)
    requires places != [] && ArePlaces(places, tail) && i <= |html| && html[i..] == Written(places, tail)
    ensures
      var p := places[0];
      var start := i + |p.before|;
      var end := start + |p.tag|;
      && end <= |html| && FindCi(html, "<img", i) == Some(start) && TagEnd(html, start) == end
      && html[i..start] == p.before && html[start..end] == p.tag
      && html[end..] == Written(places[1..], tail) && ArePlaces(places[1..], tail)
  {
    hide Holds, AtCi, ImageReading.IsTagPiece, FindCi, TagEnd;
    FirstTag(html, i, places[0].before, places[0].tag, Written(places[1..], tail));
  }

  /** Both passes at the first place, and what is written there. */
  lemma OnePlace(places: seq<Place>, tail: string, html: string, chrome: set<nat>, i: nat, p: Place, start: nat,
                 end: nat)
    requires places != [] && p == places[0] && start == i + |p.before| && end == start + |p.tag| <= |html|
    requires FindCi(html, "<img", i) == Some(start) && TagEnd(html, start) == end
    requires html[i..start] == p.before && html[start..end] == p.tag
    requires Remotes(html, ReadTag(html, chrome), end) == Images(places[1..], chrome, end)
    requires Placed(html, ReadTag(html, chrome), end) == Marked(places[1..], tail, chrome, end)
    ensures Remotes(html, ReadTag(html, chrome), i) == Images(places, chrome, i)
    ensures Placed(html, ReadTag(html, chrome), i) == Marked(places, tail, chrome, i)
  {
    hide FindCi, TagEnd, RemoteAt, MarkFor;
    var r := ReadTag(html, chrome)(start, end);
    assert r == Meaning(p, chrome, i);
  }

  lemma NowhereBehind(s: string, i: nat)
    requires i <= |s| && FindCi(s[i..], "<img", 0).None?
    ensures FindCi(s, "<img", i).None?
  {
    FindsFirst(s, "<img", i);
    FindsFirst(s[i..], "<img", 0);
    hide FindCi, AtCi;
    var r := FindCi(s, "<img", i);
    if r.Some? { AtCiShift(s, i, r.value - i, "<img"); }
  }
}
