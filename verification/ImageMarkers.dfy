/**
 * Remote images of an HTML body (src/services/content.rs): the list a reader can
 * load on demand, and the markers left where they stand.
 */
module ImageMarkers {
  import opened Wrappers
  import opened Text
  import opened ImageChrome

  // ----- Reading one tag ----------------------------------------------------------

  function SkipBlanks(s: string, k: nat, lines: bool): (r: nat)
    requires k <= |s|
    ensures k <= r <= |s|
    decreases |s| - k
  {
    if k < |s| && (s[k] == ' ' || s[k] == '\t' || (lines && (s[k] == '\n' || s[k] == '\r')))
      then SkipBlanks(s, k + 1, lines) else k
  }

  function FindUnquotedEnd(s: string, k: nat): (r: nat)
    requires k <= |s|
    ensures k <= r <= |s|
    decreases |s| - k
  {
    if k == |s| || IsWhitespace(s[k]) || s[k] == '>' || s[k] == '/' then k else FindUnquotedEnd(s, k + 1)
  }

  /** `tag_attr`: the value of attribute `name`, given in lower case, within one tag. */
  function TagAttr(tag: string, name: string, search: nat): Option<string>
    requires name != "" && search <= |tag|
    decreases |tag| - search
  {
    match FindCi(tag, name, search)
    case None => None
    case Some(pos) =>
      var beforeOk := pos == 0 || IsAsciiBlank(tag[pos - 1]) || tag[pos - 1] == '"' || tag[pos - 1] == '\'' ||
        tag[pos - 1] == '/';
      var k := SkipBlanks(tag, pos + |name|, false);
      if beforeOk && k < |tag| && tag[k] == '=' then
        var v := SkipBlanks(tag, k + 1, true);
        if v < |tag| && (tag[v] == '"' || tag[v] == '\'')
        then Some(tag[v + 1..Find(tag, tag[v], v + 1)])
        else Some(tag[v..FindUnquotedEnd(tag, v)])
      else TagAttr(tag, name, pos + |name|)
  }

  function Digits(s: string): Option<nat> {
    if s == "" then Some(0)
    else if !('0' <= s[|s| - 1] <= '9') then None
    else
      match Digits(s[..|s| - 1])
      case None => None
      case Some(n) => Some(10 * n + (s[|s| - 1] as int - '0' as int))
  }

  /** `str::parse::<u32>` */
  function ParseU32(s: string): Option<nat> {
    var body := if s != "" && s[0] == '+' then s[1..] else s;
    if body == "" then None else
    match Digits(body)
    case None => None
    case Some(n) => if n < 0x1_0000_0000 then Some(n) else None
  }

  /** `img_dimension` */
  function Dimension(tag: string, name: string): Option<nat>
    requires name != ""
  {
    match TagAttr(tag, name, 0)
    case None => None
    case Some(v) => ParseU32(Trim(v))
  }

  const TRACKERS := [
    "servlet.imageserver", "/track/open", "/wf/open", "list-manage.com/track", "/open.aspx", "/open.php",
    "google-analytics.com", "googleadservices.com", "doubleclick.net", "emltrk.com", "mailstat.us",
    "/pixel.gif", "/pixel.png", "utm.gif"]

  predicate IsTracker(tag: string) {
    var src := TagAttr(tag, "src", 0);
    src.Some? && exists m :: m in TRACKERS && FindCi(src.value, m, 0).Some?
  }

  predicate AtMost(d: Option<nat>, n: nat) { d.Some? && d.value <= n }

  /** `is_decorative_img` */
  predicate IsDecorative(tag: string) {
    var w, h := Dimension(tag, "width"), Dimension(tag, "height");
    var spacer := AtMost(w, 2) || AtMost(h, 2);
    var tiny := (AtMost(w, 48) && AtMost(h, 48)) || (AtMost(w, 48) && h.None?) || (AtMost(h, 48) && w.None?);
    spacer || tiny || IsTracker(tag)
  }

  predicate IsRemoteUrl(src: string) {
    var t := Trim(src);
    AtCi(t, 0, "http://") || AtCi(t, 0, "https://")
  }

  // ----- All image tags of a text ---------------------------------------------------

  /** An image with a remote `src`, and whether it is decoration: by its tag or by where it stands. */
  datatype RemoteImg = RemoteImg(url: string, isDecorative: bool)

  /** What a tag from one index to another means: the remote image it is, if any. */
  type Reader = (nat, nat) -> Option<RemoteImg>

  /** Reads the tag `html[start..end]`. */
  function ReadTag(html: string, chrome: set<nat>): Reader {
    (start: nat, end: nat) => if start <= end <= |html| then RemoteAt(html[start..end], start in chrome) else None
  }

  function RemoteAt(tag: string, structural: bool): Option<RemoteImg> {
    match TagAttr(tag, "src", 0)
    case None => None
    case Some(src) =>
      if IsRemoteUrl(src) then Some(RemoteImg(src, IsDecorative(tag) || structural)) else None
  }

  /** Every remote image from `i` on, in order, repeats included. */
  function Remotes(html: string, read: Reader, i: nat): seq<RemoteImg>
    requires i <= |html|
    decreases |html| - i
  {
    match FindCi(html, "<img", i)
    case None => []
    case Some(start) =>
      var end := TagEnd(html, start);
      var r := read(start, end);
      (if r.Some? then [r.value] else []) + Remotes(html, read, end)
  }

  /** The images of a text, with its structural chrome taken into account. */
  ghost function ImagesOf(html: string): seq<RemoteImg> {
    Remotes(html, ReadTag(html, ChromeOffsets(html)), 0)
  }

  predicate HasUrl(imgs: seq<RemoteImg>, url: string) {
    exists i :: 0 <= i < |imgs| && imgs[i].url == url
  }

  lemma HasUrlSnoc(imgs: seq<RemoteImg>, last: RemoteImg, url: string)
    ensures HasUrl(imgs + [last], url) <==> HasUrl(imgs, url) || last.url == url
  {
    if HasUrl(imgs, url) {
      var i :| 0 <= i < |imgs| && imgs[i].url == url;
      assert (imgs + [last])[i] == imgs[i];
    }
    if last.url == url { assert (imgs + [last])[|imgs|].url == url; }
  }

  /** Only the first image of each `url`. */
  function FirstOfEach(imgs: seq<RemoteImg>): seq<RemoteImg> {
    if imgs == [] then [] else
    var last := imgs[|imgs| - 1];
    var out := FirstOfEach(imgs[..|imgs| - 1]);
    if HasUrl(out, last.url) then out else out + [last]
  }

  lemma {:induction false} FirstOfEachKeepsUrls(imgs: seq<RemoteImg>, url: string)
    ensures HasUrl(FirstOfEach(imgs), url) <==> HasUrl(imgs, url)
  {
    if imgs != [] {
      var rest, last := imgs[..|imgs| - 1], imgs[|imgs| - 1];
      FirstOfEachKeepsUrls(rest, url);
      assert imgs == rest + [last];
      HasUrlSnoc(rest, last, url);
      HasUrlSnoc(FirstOfEach(rest), last, url);
    }
  }

  /** The urls of the images that are content. */
  function ContentUrls(imgs: seq<RemoteImg>): seq<string> {
    if imgs == [] then [] else
    var last := imgs[|imgs| - 1];
    ContentUrls(imgs[..|imgs| - 1]) + (if last.isDecorative then [] else [last.url])
  }

  ghost predicate DistinctUrls(imgs: seq<RemoteImg>) {
    forall i, j | 0 <= i < j < |imgs| :: imgs[i].url != imgs[j].url
  }

  /** Every content image is the first image with its url. */
  ghost predicate ContentComesFirst(imgs: seq<RemoteImg>) {
    forall i, j | 0 <= i < j < |imgs| && !imgs[j].isDecorative :: imgs[i].url != imgs[j].url
  }

  lemma {:induction false} LoadableWithinMarked(imgs: seq<RemoteImg>)
    ensures |ContentUrls(FirstOfEach(imgs))| <= |ContentUrls(imgs)|
    ensures forall url | url in ContentUrls(FirstOfEach(imgs)) :: url in ContentUrls(imgs)
  {
    if imgs != [] {
      var rest := imgs[..|imgs| - 1];
      var out := FirstOfEach(rest);
      LoadableWithinMarked(rest);
      assert (out + [imgs[|imgs| - 1]])[..|out|] == out;
    }
  }

  /**
   * The markers are exactly the loadable images, in order, if and only if every
   * marked image is the first with its url; with distinct urls that always holds.
   */
  lemma {:induction false} MarkersMatchIffContentFirst(imgs: seq<RemoteImg>)
    ensures ContentUrls(imgs) == ContentUrls(FirstOfEach(imgs)) <==> ContentComesFirst(imgs)
    ensures DistinctUrls(imgs) ==> ContentUrls(imgs) == ContentUrls(FirstOfEach(imgs))
  {
    if imgs != [] {
      var rest, last := imgs[..|imgs| - 1], imgs[|imgs| - 1];
      var out := FirstOfEach(rest);
      assert imgs == rest + [last];
      DistinctComesFirst(imgs);
      MarkersMatchIffContentFirst(rest);
      LoadableWithinMarked(rest);
      FirstOfEachKeepsUrls(rest, last.url);
      ContentUrlsSnoc(rest, last);
      ContentUrlsSnoc(out, last);
      ContentFirstSnoc(rest, last);
      hide ContentUrls, ContentComesFirst, HasUrl, DistinctUrls;
      var u, v, x := ContentUrls(rest), ContentUrls(out), if last.isDecorative then [] else [last.url];
      if HasUrl(out, last.url) {
        assert last.isDecorative ==> u + x == u;
      } else {
        CancelRight(u, v, x);
      }
    }
  }

  lemma CancelRight(u: seq<string>, v: seq<string>, x: seq<string>)
    ensures u + x == v + x <==> u == v
  {
    if u + x == v + x { assert u == (u + x)[..|u|] == (v + x)[..|v|] == v; }
  }

  lemma ContentUrlsSnoc(imgs: seq<RemoteImg>, last: RemoteImg)
    ensures ContentUrls(imgs + [last]) == ContentUrls(imgs) + (if last.isDecorative then [] else [last.url])
  {
    assert (imgs + [last])[..|imgs|] == imgs;
  }

  lemma ContentFirstSnoc(rest: seq<RemoteImg>, last: RemoteImg)
    ensures ContentComesFirst(rest + [last]) <==>
      ContentComesFirst(rest) && (last.isDecorative || !HasUrl(rest, last.url))
  {
    var imgs := rest + [last];
    assert forall i | 0 <= i < |rest| :: imgs[i] == rest[i];
    if HasUrl(rest, last.url) {
      var i :| 0 <= i < |rest| && rest[i].url == last.url;
      assert imgs[i].url == imgs[|rest|].url;
    }
  }

  lemma DistinctComesFirst(imgs: seq<RemoteImg>)
    ensures DistinctUrls(imgs) ==> ContentComesFirst(imgs)
  {
  }

  // ----- The two passes of the source ------------------------------------------------

  const MARKER := "\U{1F5BC}\U{FE0F}"

  /** The text from `i` on with each content image replaced by a marker and every other image dropped. */
  function Placed(html: string, read: Reader, i: nat): string
    requires i <= |html|
    decreases |html| - i
  {
    match FindCi(html, "<img", i)
    case None => html[i..]
    case Some(start) =>
      var end := TagEnd(html, start);
      html[i..start] + MarkFor(read(start, end)) + Placed(html, read, end)
  }

  function MarkFor(r: Option<RemoteImg>): string {
    if r.Some? && !r.value.isDecorative then MARKER else ""
  }

  function Marks(s: string): nat {
    if s == "" then 0 else (if s[0] == MARKER[0] then 1 else 0) + Marks(s[1..])
  }

  lemma {:induction false} MarksConcat(a: string, b: string)
    ensures Marks(a + b) == Marks(a) + Marks(b)
  {
    if a == "" {
      assert a + b == b;
    } else {
      assert (a + b)[1..] == a[1..] + b;
      MarksConcat(a[1..], b);
    }
  }

  lemma {:induction false} ContentUrlsConcat(a: seq<RemoteImg>, b: seq<RemoteImg>)
    ensures ContentUrls(a + b) == ContentUrls(a) + ContentUrls(b)
    decreases |b|
  {
    if b == [] {
      assert a + b == a;
    } else {
      assert (a + b)[..|a + b| - 1] == a + b[..|b| - 1];
      ContentUrlsConcat(a, b[..|b| - 1]);
    }
  }

  lemma NoMarks(s: string)
    requires MARKER[0] !in s
    ensures Marks(s) == 0
  {
  }

  /** A text without the marker character gets exactly one marker per content image. */
  lemma {:induction false} OneMarkerPerContentImage(html: string, read: Reader, i: nat)
    requires i <= |html| && MARKER[0] !in html
    ensures Marks(Placed(html, read, i)) == |ContentUrls(Remotes(html, read, i))|
    decreases |html| - i
  {
    match FindCi(html, "<img", i)
    case None => NoMarks(html[i..]);
    case Some(start) =>
      var end := TagEnd(html, start);
      var r := read(start, end);
      OneMarkerPerContentImage(html, read, end);
      NoMarks(html[i..start]);
      MarksConcat(html[i..start] + MarkFor(r), Placed(html, read, end));
      MarksConcat(html[i..start], MarkFor(r));
      assert Marks(MARKER) == 1 + Marks(MARKER[1..]) && MARKER[1..][1..] == "";
      ContentUrlsConcat(if r.Some? then [r.value] else [], Remotes(html, read, end));
      if r.Some? {
        assert ContentUrls([r.value]) == ContentUrls([]) + (if r.value.isDecorative then [] else [r.value.url]);
      }
  }

  // ----- Which image a marker stands for ------------------------------------------------

  /** The text from `i` on with each content image replaced by its url and every other image dropped. */
  function Named(html: string, read: Reader, i: nat): string
    requires i <= |html|
    decreases |html| - i
  {
    match FindCi(html, "<img", i)
    case None => html[i..]
    case Some(start) =>
      var end := TagEnd(html, start);
      var r := read(start, end);
      html[i..start] + (if r.Some? && !r.value.isDecorative then r.value.url else "") + Named(html, read, end)
  }

  /** The text with its markers replaced by these urls, one after the other. */
  function Filled(s: string, urls: seq<string>): string
    decreases |s|
  {
    if s == "" then ""
    else if MARKER <= s && urls != [] then urls[0] + Filled(s[2..], urls[1..])
    else [s[0]] + Filled(s[1..], urls)
  }

  lemma {:induction false} FilledPlain(a: string, s: string, urls: seq<string>)
    requires MARKER[0] !in a
    ensures Filled(a + s, urls) == a + Filled(s, urls)
    decreases |a|
  {
    if a == "" {
      assert a + s == s;
    } else {
      assert (a + s)[0] == a[0] && (a + s)[1..] == a[1..] + s;
      assert MARKER[0] != a[0];
      FilledPlain(a[1..], s, urls);
      assert a == [a[0]] + a[1..];
    }
  }

  lemma FilledMark(s: string, url: string, urls: seq<string>)
    ensures Filled(MARKER + s, [url] + urls) == url + Filled(s, urls)
  {
    assert (MARKER + s)[2..] == s && ([url] + urls)[1..] == urls;
  }

  /** What is read, placed and named from one image on. */
  lemma MarkerUnfolds(html: string, read: Reader, i: nat, start: nat)
    requires i <= |html| && FindCi(html, "<img", i) == Some(start)
    ensures
      var end, r := TagEnd(html, start), read(start, TagEnd(html, start));
      var isContent := r.Some? && !r.value.isDecorative;
      && Placed(html, read, i) == html[i..start] + MarkFor(r) + Placed(html, read, end)
      && Named(html, read, i) == html[i..start] + (if isContent then r.value.url else "") + Named(html, read, end)
      && ContentUrls(Remotes(html, read, i))
         == (if isContent then [r.value.url] else []) + ContentUrls(Remotes(html, read, end))
  {
    hide TagEnd, FindCi, MarkFor;
    var end, r := TagEnd(html, start), read(start, TagEnd(html, start));
    assert Remotes(html, read, i) == (if r.Some? then [r.value] else []) + Remotes(html, read, end);
    ContentUrlsConcat(if r.Some? then [r.value] else [], Remotes(html, read, end));
    if r.Some? { OneContentUrl(r.value); } else { assert ContentUrls([]) == []; }
  }

  lemma OneContentUrl(img: RemoteImg)
    ensures ContentUrls([img]) == if img.isDecorative then [] else [img.url]
  {
    assert [img][..0] == [];
  }

  /** Each marker stands where its image stood: the k-th one for the k-th content image. */
  lemma {:induction false} MarkersKeepOrder(html: string, read: Reader, i: nat)
    requires i <= |html| && MARKER[0] !in html
    ensures Filled(Placed(html, read, i), ContentUrls(Remotes(html, read, i))) == Named(html, read, i)
    decreases |html| - i
  {
    hide TagEnd, FindCi;
    match FindCi(html, "<img", i)
    case None =>
      assert html[i..] + "" == html[i..];
      FilledPlain(html[i..], "", []);
      assert Filled("", []) == "";
      assert Remotes(html, read, i) == [] && ContentUrls(Remotes(html, read, i)) == [];
    case Some(start) =>
      var end := TagEnd(html, start);
      var r := read(start, end);
      MarkersKeepOrder(html, read, end);
      MarkerUnfolds(html, read, i, start);
      hide Filled, Placed, Named, Remotes, ContentUrls;
      MarkerFilled(html[i..start], r, Placed(html, read, end), ContentUrls(Remotes(html, read, end)));
  }

  lemma MarkerFilled(a: string, r: Option<RemoteImg>, rest: string, urls: seq<string>)
    requires MARKER[0] !in a
    ensures
      var isContent := r.Some? && !r.value.isDecorative;
      Filled(a + MarkFor(r) + rest, (if isContent then [r.value.url] else []) + urls)
      == a + (if isContent then r.value.url else "") + Filled(rest, urls)
  {
    hide Filled;
    assert a + MarkFor(r) + rest == a + (MarkFor(r) + rest);
    if r.Some? && !r.value.isDecorative {
      FilledPlain(a, MARKER + rest, [r.value.url] + urls);
      FilledMark(rest, r.value.url, urls);
    } else {
      assert [] + urls == urls && "" + rest == rest;
      FilledPlain(a, rest, urls);
    }
  }

  lemma RemotesStep(html: string, read: Reader, i: nat, seen: seq<RemoteImg>)
    requires i <= |html| && FindCi(html, "<img", i).Some?
    ensures
      var start := FindCi(html, "<img", i).value;
      var end := TagEnd(html, start);
      var r := read(start, end);
      seen + Remotes(html, read, i) == (if r.Some? then seen + [r.value] else seen) + Remotes(html, read, end)
  {
    hide FindCi, TagEnd;
    var start := FindCi(html, "<img", i).value;
    var end := TagEnd(html, start);
    var r := read(start, end);
    assert Remotes(html, read, i) == (if r.Some? then [r.value] else []) + Remotes(html, read, end);
  }

  lemma RemotesEnd(html: string, read: Reader, i: nat)
    requires i <= |html| && FindCi(html, "<img", i).None?
    ensures Remotes(html, read, i) == []
  {
  }

  method Extract(html: string, read: Reader) returns (out: seq<RemoteImg>)
    ensures out == FirstOfEach(Remotes(html, read, 0))
  {
    hide FindCi, TagEnd, HasUrl, Remotes;
    out := [];
    ghost var seen: seq<RemoteImg> := [];
    var i := 0;
    var next := FindCi(html, "<img", i);
    while next.Some?
      invariant i <= |html| && next == FindCi(html, "<img", i)
      invariant Remotes(html, read, 0) == seen + Remotes(html, read, i)
      invariant out == FirstOfEach(seen)
      decreases |html| - i
    {
      var end := TagEnd(html, next.value);
      var r := read(next.value, end);
      RemotesStep(html, read, i, seen);
      if r.Some? {
        assert (seen + [r.value])[..|seen|] == seen;
        if !HasUrl(out, r.value.url) {
          out := out + [r.value];
        }
        seen := seen + [r.value];
      }
      i := end;
      next := FindCi(html, "<img", i);
    }
    RemotesEnd(html, read, i);
    assert seen + [] == seen;
  }

  lemma PlacedStep(html: string, read: Reader, i: nat, out: string)
    requires i <= |html| && FindCi(html, "<img", i).Some?
    ensures
      var start := FindCi(html, "<img", i).value;
      var end := TagEnd(html, start);
      var out' := out + html[i..start];
      out + Placed(html, read, i) ==
        (if MarkFor(read(start, end)) == "" then out' else out' + MARKER) + Placed(html, read, end)
  {
    hide FindCi, TagEnd;
  }

  lemma PlacedEnd(html: string, read: Reader, i: nat)
    requires i <= |html| && FindCi(html, "<img", i).None?
    ensures Placed(html, read, i) == html[i..]
  {
  }

  method Place(html: string, read: Reader) returns (out: string)
    ensures out == Placed(html, read, 0)
  {
    hide FindCi, TagEnd, Placed;
    out := "";
    var i := 0;
    var next := FindCi(html, "<img", i);
    while next.Some?
      invariant i <= |html| && next == FindCi(html, "<img", i)
      invariant Placed(html, read, 0) == out + Placed(html, read, i)
      decreases |html| - i
    {
      var end := TagEnd(html, next.value);
      var r := read(next.value, end);
      PlacedStep(html, read, i, out);
      out := out + html[i..next.value];
      if r.Some? && !r.value.isDecorative {
        out := out + MARKER;
      }
      i := end;
      next := FindCi(html, "<img", i);
    }
    PlacedEnd(html, read, i);
    out := out + html[i..];
  }

  /** `extract_remote_images`: the first image of each url, decorations flagged. */
  method ExtractRemoteImages(html: string) returns (out: seq<RemoteImg>)
    ensures out == FirstOfEach(ImagesOf(html))
  {
    var chrome := ChromeImageOffsets(html);
    out := Extract(html, ReadTag(html, chrome));
  }

  /**
   * `placeholder_remote_images`: giving the k-th marker the k-th url of the content
   * images gives every image its own, and these are the urls `extract_remote_images`
   * finds loadable exactly when every content image is the first with its url.
   */
  method PlaceholderRemoteImages(html: string) returns (out: string)
    ensures out == Placed(html, ReadTag(html, ChromeOffsets(html)), 0)
    ensures MARKER[0] !in html ==>
      var urls := ContentUrls(ImagesOf(html));
      Marks(out) == |urls| && Filled(out, urls) == Named(html, ReadTag(html, ChromeOffsets(html)), 0)
    ensures ContentUrls(ImagesOf(html)) == ContentUrls(FirstOfEach(ImagesOf(html))) <==>
      ContentComesFirst(ImagesOf(html))
  {
    var chrome := ChromeImageOffsets(html);
    out := Place(html, ReadTag(html, chrome));
    MarkersMatchIffContentFirst(ImagesOf(html));
    if MARKER[0] !in html {
      OneMarkerPerContentImage(html, ReadTag(html, chrome), 0);
      MarkersKeepOrder(html, ReadTag(html, chrome), 0);
    }
  }
}
