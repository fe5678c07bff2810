/**
 * Structural image chrome (src/services/content.rs): which images of an HTML
 * body are mastheads, list bullets or icon strips. The source finds them in one
 * pass over five flags; the specification looks at the whole token stream.
 */
module ImageChrome {
  import opened Wrappers
  import opened Text

  datatype Kind = Blank | Visible | Img | LinkOpen | LinkClose | Item | Break | Other

  /** One unit of the scan: a blank unit, a visible character or a tag, and where it starts. */
  datatype Token = Token(kind: Kind, at: nat)

  function KindAt(s: string, i: nat): Kind
    requires i < |s|
  {
    if s[i] != '<' then (if BlankLen(s, i) > 0 then Blank else Visible)
    else if StartsTag(s, i, "<img") then Img
    else if StartsTag(s, i, "</a") then LinkClose
    else if StartsTag(s, i, "<a") then LinkOpen
    else if StartsTag(s, i, "<br") then Break
    else if StartsTag(s, i, "<li") then Item
    else Other
  }

  function NextAt(s: string, i: nat): (j: nat)
    requires i < |s|
    ensures i < j <= |s|
  {
    if s[i] == '<' then TagEnd(s, i)
    else if BlankLen(s, i) > 0 then i + BlankLen(s, i)
    else i + 1
  }

  function Tokens(s: string, i: nat): (ts: seq<Token>)
    requires i <= |s|
    ensures forall j | 0 <= j < |ts| :: ts[j].at >= i
    ensures forall j, k | 0 <= j < k < |ts| :: ts[j].at < ts[k].at
    decreases |s| - i
  {
    if i == |s| then [] else [Token(KindAt(s, i), i)] + Tokens(s, NextAt(s, i))
  }

  // ----- The specification: what makes an image chrome --------------------------

  ghost predicate NoText(ts: seq<Token>, lo: nat, hi: nat) {
    forall j | lo <= j < hi && j < |ts| :: ts[j].kind != Visible
  }

  /** Neither visible text nor an image. */
  ghost predicate NoNode(ts: seq<Token>, lo: nat, hi: nat) {
    forall j | lo <= j < hi && j < |ts| :: ts[j].kind != Visible && ts[j].kind != Img
  }

  /** Position `k` is inside the link opened at `o`: no other link tag since. */
  ghost predicate InLink(ts: seq<Token>, o: nat, k: nat) {
    && o < k <= |ts| && ts[o].kind == LinkOpen
    && forall j | o < j < k :: ts[j].kind != LinkOpen && ts[j].kind != LinkClose
  }

  /** `c` closes a text-free link, opened at `o`. */
  ghost predicate PlainLink(ts: seq<Token>, o: nat, c: nat) {
    c < |ts| && InLink(ts, o, c) && ts[c].kind == LinkClose && NoText(ts, o + 1, c)
  }

  ghost predicate TwoImgs(ts: seq<Token>, lo: nat, hi: nat) {
    exists j, k :: lo <= j < k < hi && k < |ts| && ts[j].kind == Img && ts[k].kind == Img
  }

  /** `m` is the only image between `lo` and `hi`. */
  ghost predicate OnlyImg(ts: seq<Token>, m: nat, lo: nat, hi: nat) {
    && lo <= m < hi && m < |ts| && ts[m].kind == Img
    && forall j | lo <= j < hi && j < |ts| && ts[j].kind == Img :: j == m
  }

  /** A text-free link with two or more images. */
  ghost predicate StripLink(ts: seq<Token>, o: nat, c: nat) {
    PlainLink(ts, o, c) && TwoImgs(ts, o + 1, c)
  }

  /** A text-free link whose only image is `m`. */
  ghost predicate SoloLink(ts: seq<Token>, o: nat, m: nat, c: nat) {
    PlainLink(ts, o, c) && OnlyImg(ts, m, o + 1, c)
  }

  ghost predicate SoloClose(ts: seq<Token>, c: nat) {
    exists o: nat, m: nat :: SoloLink(ts, o, m, c)
  }

  /** A token an icon strip may contain between two link closes. */
  ghost predicate Transparent(ts: seq<Token>, j: nat)
    requires j < |ts|
  {
    match ts[j].kind
    case Blank => true
    case Break => true
    case LinkOpen => true
    case Img => exists o: nat :: InLink(ts, o, j)
    case LinkClose => !exists o: nat :: InLink(ts, o, j)
    case _ => false
  }

  ghost predicate AllTransparent(ts: seq<Token>, lo: nat, hi: nat) {
    forall j | lo <= j < hi && j < |ts| :: Transparent(ts, j)
  }

  /** Two single-image links in a row. */
  ghost predicate Adjacent(ts: seq<Token>, c: nat, d: nat) {
    c < d < |ts| && SoloClose(ts, c) && SoloClose(ts, d) && AllTransparent(ts, c + 1, d)
  }

  ghost predicate Masthead(ts: seq<Token>, k: nat) {
    !NoText(ts, 0, |ts|) && NoText(ts, 0, k)
  }

  ghost predicate Bullet(ts: seq<Token>, k: nat) {
    exists l: nat :: l < k && l < |ts| && ts[l].kind == Item && NoNode(ts, l + 1, k)
  }

  /** In a strip within one link that closes before `n`. */
  ghost predicate InStrip(ts: seq<Token>, k: nat, n: nat) {
    exists o: nat, c: nat :: o < k < c < n && StripLink(ts, o, c)
  }

  /** The image of a link in a run of at least two single-image links, as far as `n`. */
  ghost predicate InRun(ts: seq<Token>, k: nat, n: nat) {
    exists o: nat, c: nat :: c < n && SoloLink(ts, o, k, c) && HasNeighbour(ts, c, n)
  }

  ghost predicate HasNeighbour(ts: seq<Token>, c: nat, n: nat) {
    exists d: nat :: d < n && (Adjacent(ts, c, d) || Adjacent(ts, d, c))
  }

  ghost predicate IsChrome(ts: seq<Token>, k: nat) {
    k < |ts| && ts[k].kind == Img && (Masthead(ts, k) || Bullet(ts, k) || InStrip(ts, k, |ts|) || InRun(ts, k, |ts|))
  }

  // ----- The one-pass scan --------------------------------------------------------

  datatype Scan = Scan(
    chrome: set<nat>,
    seenText: bool,
    liLeading: bool,
    aOpen: bool,
    aText: bool,
    aImgs: seq<nat>,
    chain: seq<nat>,
    chainLive: bool)

  const Start := Scan({}, false, false, false, false, [], [], false)

  function Elements(s: seq<nat>): set<nat> {
    set x | x in s
  }

  /** `flush_link_chain` */
  function Flush(z: Scan): Scan {
    z.(chrome := if |z.chain| >= 2 then z.chrome + Elements(z.chain) else z.chrome, chain := [])
  }

  function ScanStep(z: Scan, docHasText: bool, t: Token): Scan {
    match t.kind
    case Blank => z
    case Break => z
    case Visible =>
      Flush(z).(chainLive := false, seenText := true, liLeading := false, aText := z.aText || z.aOpen)
    case Img =>
      var y := z.(chrome := if (docHasText && !z.seenText) || z.liLeading then z.chrome + {t.at} else z.chrome,
                  liLeading := false);
      if z.aOpen then y.(aImgs := z.aImgs + [t.at]) else Flush(y).(chainLive := false)
    case LinkClose =>
      if !z.aOpen then z
      else if !z.aText && |z.aImgs| >= 2 then
        Flush(z.(chrome := z.chrome + Elements(z.aImgs))).(chainLive := false, aOpen := false, aImgs := [])
      else if !z.aText && |z.aImgs| == 1 then
        var y := if z.chainLive then z else Flush(z);
        y.(chain := y.chain + [z.aImgs[0]], chainLive := true, aOpen := false, aImgs := [])
      else
        Flush(z).(chainLive := false, aOpen := false, aImgs := [])
    case LinkOpen => z.(aOpen := true, aText := false, aImgs := [])
    case Item => Flush(z).(chainLive := false, liLeading := true)
    case Other => Flush(z).(chainLive := false)
  }

  function After(ts: seq<Token>, docHasText: bool, n: nat): Scan
    requires n <= |ts|
  {
    if n == 0 then Start else ScanStep(After(ts, docHasText, n - 1), docHasText, ts[n - 1])
  }

  // ----- What the scan knows after `n` tokens --------------------------------------

  /** The link at `c`, with its image `m`, that the scan holds back in `chain`. */
  datatype Held = Held(m: nat, c: nat)

  /** The offsets of the tokens with these indices. */
  function Offsets(ts: seq<Token>, ks: set<nat>): set<nat> {
    set k | k in ks && k < |ts| :: ts[k].at
  }

  lemma OffsetsUnion(ts: seq<Token>, a: set<nat>, b: set<nat>)
    ensures Offsets(ts, a + b) == Offsets(ts, a) + Offsets(ts, b)
  {
  }

  function ImgsIn(ts: seq<Token>, lo: nat, hi: nat): seq<nat>
    requires lo <= hi <= |ts|
  {
    if lo == hi then [] else
    ImgsIn(ts, lo, hi - 1) + (if ts[hi - 1].kind == Img then [ts[hi - 1].at] else [])
  }

  ghost predicate FlagsInv(ts: seq<Token>, n: nat, z: Scan)
    requires n <= |ts|
  {
    && (z.seenText <==> !NoText(ts, 0, n))
    && (z.liLeading <==> Bullet(ts, n))
    && (z.aOpen <==> exists o: nat :: InLink(ts, o, n))
    && (forall o: nat | InLink(ts, o, n) ::
          (z.aText <==> !NoText(ts, o + 1, n)) && z.aImgs == ImgsIn(ts, o + 1, n))
  }

  /** A solo link closed before `n` with only transparent tokens since. */
  ghost predicate Tail(ts: seq<Token>, d: nat, n: nat) {
    d < n && d < |ts| && SoloClose(ts, d) && AllTransparent(ts, d + 1, n)
  }

  ghost predicate HeldInv(ts: seq<Token>, n: nat, z: Scan, held: seq<Held>)
    requires n <= |ts|
  {
    && |z.chain| == |held|
    && (z.chainLive <==> held != [])
    && (forall i | 0 <= i < |held| ::
          && held[i].m < held[i].c < n
          && (exists o: nat :: SoloLink(ts, o, held[i].m, held[i].c))
          && z.chain[i] == ts[held[i].m].at)
    && (forall i | 0 < i < |held| :: Adjacent(ts, held[i - 1].c, held[i].c))
    && (held != [] ==> forall d: nat :: !Adjacent(ts, d, held[0].c))
    && (forall d: nat | Tail(ts, d, n) :: held != [] && d == held[|held| - 1].c)
    && (held != [] ==> Tail(ts, held[|held| - 1].c, n))
  }

  ghost predicate IsHeld(held: seq<Held>, k: nat) {
    exists i :: 0 <= i < |held| && held[i].m == k
  }

  /** What `chrome` says after `n` tokens about the image at index `k`. */
  ghost predicate Decided(ts: seq<Token>, docHasText: bool, k: nat, n: nat, held: seq<Held>) {
    || (docHasText && NoText(ts, 0, k)) || Bullet(ts, k) || InStrip(ts, k, n)
    || (InRun(ts, k, n) && !IsHeld(held, k))
  }

  ghost function DecidedSet(ts: seq<Token>, docHasText: bool, n: nat, held: seq<Held>): set<nat> {
    set k | 0 <= k < n && k < |ts| && ts[k].kind == Img && Decided(ts, docHasText, k, n, held)
  }

  ghost predicate ChromeInv(ts: seq<Token>, docHasText: bool, n: nat, z: Scan, held: seq<Held>) {
    z.chrome == Offsets(ts, DecidedSet(ts, docHasText, n, held))
  }

  lemma OpenerUnique(ts: seq<Token>, o: nat, p: nat, k: nat)
    requires InLink(ts, o, k) && InLink(ts, p, k)
    ensures o == p
  {
  }

  lemma BulletStep(ts: seq<Token>, n: nat)
    requires n < |ts|
    ensures Bullet(ts, n + 1) <==> ts[n].kind == Item || (Bullet(ts, n) && ts[n].kind != Visible && ts[n].kind != Img)
  {
    if ts[n].kind == Item { assert NoNode(ts, n + 1, n + 1); }
    if Bullet(ts, n) && ts[n].kind != Visible && ts[n].kind != Img {
      var l: nat :| l < n && l < |ts| && ts[l].kind == Item && NoNode(ts, l + 1, n);
      assert NoNode(ts, l + 1, n + 1);
    }
    if Bullet(ts, n + 1) && ts[n].kind != Item {
      var l: nat :| l < n + 1 && l < |ts| && ts[l].kind == Item && NoNode(ts, l + 1, n + 1);
      assert NoNode(ts, l + 1, n);
    }
  }

  lemma LinkStep(ts: seq<Token>, n: nat, o: nat)
    requires n < |ts|
    ensures InLink(ts, o, n + 1) <==>
      if ts[n].kind == LinkOpen then o == n else InLink(ts, o, n) && ts[n].kind != LinkClose
  {
  }

  lemma StepKeepsLink(ts: seq<Token>, docHasText: bool, n: nat, z: Scan, o: nat)
    requires n < |ts| && FlagsInv(ts, n, z) && InLink(ts, o, n + 1)
    ensures
      var z' := ScanStep(z, docHasText, ts[n]);
      (z'.aText <==> !NoText(ts, o + 1, n + 1)) && z'.aImgs == ImgsIn(ts, o + 1, n + 1) && z'.aOpen
  {
    LinkStep(ts, n, o);
    assert ts[n].kind != LinkOpen ==> InLink(ts, o, n);
    assert NoText(ts, o + 1, n + 1) <==> o == n || (NoText(ts, o + 1, n) && ts[n].kind != Visible);
  }

  lemma StepKeepsLinks(ts: seq<Token>, docHasText: bool, n: nat, z: Scan)
    requires n < |ts| && FlagsInv(ts, n, z)
    ensures
      var z', n' := ScanStep(z, docHasText, ts[n]), n + 1;
      && (z'.aOpen <==> exists o: nat :: InLink(ts, o, n'))
      && (forall o: nat | InLink(ts, o, n') ::
            (z'.aText <==> !NoText(ts, o + 1, n')) && z'.aImgs == ImgsIn(ts, o + 1, n'))
  {
    var z', n' := ScanStep(z, docHasText, ts[n]), n + 1;
    forall o: nat | InLink(ts, o, n')
      ensures (z'.aText <==> !NoText(ts, o + 1, n')) && z'.aImgs == ImgsIn(ts, o + 1, n') && z'.aOpen
    {
      StepKeepsLink(ts, docHasText, n, z, o);
    }
    if z'.aOpen {
      if ts[n].kind == LinkOpen {
        assert InLink(ts, n, n');
      } else {
        var o: nat :| InLink(ts, o, n);
        LinkStep(ts, n, o);
      }
    }
  }

  lemma StepKeepsFlags(ts: seq<Token>, docHasText: bool, n: nat, z: Scan)
    requires n < |ts| && FlagsInv(ts, n, z)
    ensures FlagsInv(ts, n + 1, ScanStep(z, docHasText, ts[n]))
  {
    BulletStep(ts, n);
    assert NoText(ts, 0, n + 1) <==> NoText(ts, 0, n) && ts[n].kind != Visible;
    StepKeepsLinks(ts, docHasText, n, z);
  }

  // Images of the open link.

  function ImgSet(ts: seq<Token>, lo: nat, hi: nat): set<nat> {
    set j | lo <= j < hi && j < |ts| && ts[j].kind == Img
  }

  lemma ImgsInSet(ts: seq<Token>, lo: nat, hi: nat)
    requires lo <= hi <= |ts|
    ensures Elements(ImgsIn(ts, lo, hi)) == Offsets(ts, ImgSet(ts, lo, hi))
  {
    if lo < hi {
      ImgsInSet(ts, lo, hi - 1);
      if ts[hi - 1].kind == Img {
        assert ImgSet(ts, lo, hi) == ImgSet(ts, lo, hi - 1) + {hi - 1};
        OffsetsUnion(ts, ImgSet(ts, lo, hi - 1), {hi - 1});
      } else {
        assert ImgSet(ts, lo, hi) == ImgSet(ts, lo, hi - 1);
      }
    }
  }

  lemma ImgsInNone(ts: seq<Token>, lo: nat, hi: nat)
    requires lo <= hi <= |ts|
    ensures |ImgsIn(ts, lo, hi)| == 0 <==> forall j | lo <= j < hi :: ts[j].kind != Img
  {
    if lo < hi { ImgsInNone(ts, lo, hi - 1); }
  }

  lemma ImgsInOne(ts: seq<Token>, lo: nat, hi: nat)
    requires lo <= hi <= |ts|
    ensures |ImgsIn(ts, lo, hi)| == 1 ==> exists m: nat :: OnlyImg(ts, m, lo, hi) && ImgsIn(ts, lo, hi)[0] == ts[m].at
    ensures (exists m: nat :: OnlyImg(ts, m, lo, hi)) ==> |ImgsIn(ts, lo, hi)| == 1
  {
    if lo < hi {
      var h := hi - 1;
      ImgsInOne(ts, lo, h);
      ImgsInNone(ts, lo, h);
      if |ImgsIn(ts, lo, hi)| == 1 {
        if ts[h].kind == Img {
          assert OnlyImg(ts, h, lo, hi);
        } else {
          var m: nat :| OnlyImg(ts, m, lo, h) && ImgsIn(ts, lo, h)[0] == ts[m].at;
          assert OnlyImg(ts, m, lo, hi);
        }
      }
      if m: nat :| OnlyImg(ts, m, lo, hi) {
        if m < h { assert OnlyImg(ts, m, lo, h); }
      }
    }
  }

  lemma ImgsInTwo(ts: seq<Token>, lo: nat, hi: nat)
    requires lo <= hi <= |ts|
    ensures |ImgsIn(ts, lo, hi)| >= 2 <==> TwoImgs(ts, lo, hi)
  {
    if lo < hi {
      var h := hi - 1;
      ImgsInTwo(ts, lo, h);
      ImgsInNone(ts, lo, h);
      if TwoImgs(ts, lo, hi) && !TwoImgs(ts, lo, h) {
        var j, k :| lo <= j < k < hi && k < |ts| && ts[j].kind == Img && ts[k].kind == Img;
        assert k == h;
      }
      if |ImgsIn(ts, lo, hi)| >= 2 && |ImgsIn(ts, lo, h)| == 1 {
        var j :| lo <= j < h && ts[j].kind == Img;
        assert j < h && ts[h].kind == Img;
      }
    }
  }

  // Runs of single-image links.

  lemma SoloCloseOpensNothing(ts: seq<Token>, c: nat)
    requires c < |ts| && SoloClose(ts, c)
    ensures !Transparent(ts, c) && ts[c].kind == LinkClose
  {
    var o: nat, m: nat :| SoloLink(ts, o, m, c);
    assert InLink(ts, o, c);
  }

  lemma SoloUnique(ts: seq<Token>, o: nat, m: nat, c: nat, p: nat, d: nat)
    requires SoloLink(ts, o, m, c) && SoloLink(ts, p, m, d)
    ensures c == d && o == p
  {
    assert !(c < d) && !(d < c);
    OpenerUnique(ts, o, p, c);
  }

  lemma SoloUniqueClose(ts: seq<Token>, o: nat, m: nat, p: nat, l: nat, c: nat)
    requires SoloLink(ts, o, m, c) && SoloLink(ts, p, l, c)
    ensures m == l && o == p
  {
    OpenerUnique(ts, o, p, c);
  }

  lemma TailStep(ts: seq<Token>, n: nat, d: nat)
    requires n < |ts|
    ensures Tail(ts, d, n + 1) <==> (d == n && SoloClose(ts, n)) || (Tail(ts, d, n) && Transparent(ts, n))
  {
  }

  lemma AdjacentIsTail(ts: seq<Token>, d: nat, c: nat)
    requires c < |ts|
    ensures Adjacent(ts, d, c) <==> SoloClose(ts, c) && Tail(ts, d, c)
  {
  }

  /** Neighbours are found once the later of the two closes is past. */
  lemma NeighbourStep(ts: seq<Token>, c: nat, n: nat)
    requires c < n < |ts|
    ensures HasNeighbour(ts, c, n + 1) <==> HasNeighbour(ts, c, n) || Adjacent(ts, c, n)
  {
    if HasNeighbour(ts, c, n + 1) && !HasNeighbour(ts, c, n) {
      var d: nat :| d < n + 1 && (Adjacent(ts, c, d) || Adjacent(ts, d, c));
    }
  }

  /** The chain's links are exactly those with a neighbour, unless there is only one. */
  lemma HeldNeighbours(ts: seq<Token>, n: nat, z: Scan, held: seq<Held>, i: nat)
    requires n <= |ts| && HeldInv(ts, n, z, held) && i < |held|
    ensures HasNeighbour(ts, held[i].c, n) <==> |held| >= 2
  {
    if |held| >= 2 {
      if i > 0 { assert Adjacent(ts, held[i - 1].c, held[i].c); } else { assert Adjacent(ts, held[0].c, held[1].c); }
    } else if HasNeighbour(ts, held[0].c, n) {
      var d: nat :| d < n && (Adjacent(ts, held[0].c, d) || Adjacent(ts, d, held[0].c));
      SoloCloseOpensNothing(ts, d);
    }
  }

  lemma HeldInRun(ts: seq<Token>, n: nat, z: Scan, held: seq<Held>, k: nat)
    requires n <= |ts| && HeldInv(ts, n, z, held) && IsHeld(held, k)
    ensures InRun(ts, k, n) <==> |held| >= 2
  {
    var i :| 0 <= i < |held| && held[i].m == k;
    HeldNeighbours(ts, n, z, held, i);
    var o: nat :| SoloLink(ts, o, held[i].m, held[i].c);
    if InRun(ts, k, n) {
      var p: nat, c: nat :| c < n && SoloLink(ts, p, k, c) && HasNeighbour(ts, c, n);
      SoloUnique(ts, o, k, held[i].c, p, c);
    }
  }

  function HeldSet(held: seq<Held>): set<nat> {
    set i | 0 <= i < |held| :: held[i].m
  }

  /** Flushing settles every image the chain held back. */
  lemma FlushSettles(ts: seq<Token>, docHasText: bool, n: nat, z: Scan, held: seq<Held>)
    requires n <= |ts| && HeldInv(ts, n, z, held) && ChromeInv(ts, docHasText, n, z, held)
    ensures ChromeInv(ts, docHasText, n, Flush(z), [])
  {
    var before, all := DecidedSet(ts, docHasText, n, held), DecidedSet(ts, docHasText, n, []);
    var added := if |held| >= 2 then HeldSet(held) else {};
    forall k | 0 <= k < n && ts[k].kind == Img ensures k in all <==> k in before + added {
      if IsHeld(held, k) { HeldInRun(ts, n, z, held, k); }
      assert !IsHeld([], k);
      assert IsHeld(held, k) <==> k in HeldSet(held);
    }
    forall k | k in added ensures k in all {
      var i :| 0 <= i < |held| && held[i].m == k;
      var o: nat :| SoloLink(ts, o, held[i].m, held[i].c);
    }
    assert all == before + added;
    OffsetsUnion(ts, before, added);
    ChainOffsets(ts, n, z, held);
  }

  lemma ChainOffsets(ts: seq<Token>, n: nat, z: Scan, held: seq<Held>)
    requires n <= |ts| && HeldInv(ts, n, z, held)
    ensures Elements(z.chain) == Offsets(ts, HeldSet(held))
  {
    forall x | x in Elements(z.chain) ensures x in Offsets(ts, HeldSet(held)) {
      var i :| 0 <= i < |z.chain| && z.chain[i] == x;
      assert held[i].m in HeldSet(held);
    }
    forall x | x in Offsets(ts, HeldSet(held)) ensures x in Elements(z.chain) {
      var i :| 0 <= i < |held| && ts[held[i].m].at == x;
      assert z.chain[i] == x;
    }
  }

  // One step, by what the token does to the chain.

  lemma StripStep(ts: seq<Token>, k: nat, n: nat)
    requires k < n + 1 <= |ts|
    ensures InStrip(ts, k, n + 1) <==> InStrip(ts, k, n) || exists o: nat :: o < k < n && StripLink(ts, o, n)
  {
    var n' := n + 1;
    if InStrip(ts, k, n') && !InStrip(ts, k, n) {
      var o: nat, c: nat :| o < k < c < n' && StripLink(ts, o, c);
    }
  }

  lemma RunStep(ts: seq<Token>, k: nat, n: nat)
    requires k < n + 1 <= |ts| && !SoloClose(ts, n)
    ensures InRun(ts, k, n + 1) <==> InRun(ts, k, n)
  {
    var n' := n + 1;
    if InRun(ts, k, n') {
      var o: nat, c: nat :| c < n' && SoloLink(ts, o, k, c) && HasNeighbour(ts, c, n');
      assert c != n;
      NeighbourStep(ts, c, n);
    }
    if InRun(ts, k, n) {
      var o: nat, c: nat :| c < n && SoloLink(ts, o, k, c) && HasNeighbour(ts, c, n);
      NeighbourStep(ts, c, n);
    }
  }

  /** The images settled by where they stand, before their link closes. */
  ghost function StandsOut(ts: seq<Token>, docHasText: bool, n: nat): set<nat>
    requires n < |ts|
  {
    if ts[n].kind == Img && ((docHasText && NoText(ts, 0, n)) || Bullet(ts, n)) then {n} else {}
  }

  /** The token settles nothing else: no link with two images or with one closes here. */
  lemma QuietStep(ts: seq<Token>, docHasText: bool, n: nat, z: Scan, z': Scan, held: seq<Held>)
    requires n < |ts| && !SoloClose(ts, n) && (forall o: nat :: !StripLink(ts, o, n))
    requires ChromeInv(ts, docHasText, n, z, held) && !IsHeld(held, n)
    requires z'.chrome == z.chrome + Offsets(ts, StandsOut(ts, docHasText, n))
    ensures ChromeInv(ts, docHasText, n + 1, z', held)
  {
    var before, all := DecidedSet(ts, docHasText, n, held), DecidedSet(ts, docHasText, n + 1, held);
    forall k | 0 <= k < n + 1 && ts[k].kind == Img ensures k in all <==> k in before + StandsOut(ts, docHasText, n) {
      StripStep(ts, k, n);
      RunStep(ts, k, n);
      if k == n { NothingSettledYet(ts, n); }
    }
    assert all == before + StandsOut(ts, docHasText, n);
    OffsetsUnion(ts, before, StandsOut(ts, docHasText, n));
  }

  /** An image is in no finished link yet. */
  lemma NothingSettledYet(ts: seq<Token>, n: nat)
    ensures !InStrip(ts, n, n) && !InRun(ts, n, n)
  {
  }

  lemma PassKeepsHeld(ts: seq<Token>, n: nat, z: Scan, z': Scan, held: seq<Held>)
    requires n < |ts| && HeldInv(ts, n, z, held) && Transparent(ts, n)
    requires z'.chain == z.chain && z'.chainLive == z.chainLive
    ensures HeldInv(ts, n + 1, z', held) && !SoloClose(ts, n)
  {
    if SoloClose(ts, n) { SoloCloseOpensNothing(ts, n); }
    hide SoloLink, SoloClose, Transparent, AllTransparent, Adjacent, Tail;
    var n' := n + 1;
    forall d: nat | Tail(ts, d, n') ensures held != [] && d == held[|held| - 1].c { TailStep(ts, n, d); }
    if held != [] { TailStep(ts, n, held[|held| - 1].c); }
  }

  lemma BreakEmptiesHeld(ts: seq<Token>, n: nat, z': Scan)
    requires n < |ts| && !Transparent(ts, n) && !SoloClose(ts, n)
    requires z'.chain == [] && !z'.chainLive
    ensures HeldInv(ts, n + 1, z', [])
  {
    var n' := n + 1;
    forall d: nat | Tail(ts, d, n') ensures false { TailStep(ts, n, d); }
  }

  ghost predicate ScanInv(ts: seq<Token>, docHasText: bool, n: nat, z: Scan, held: seq<Held>)
    requires n <= |ts|
  {
    FlagsInv(ts, n, z) && HeldInv(ts, n, z, held) && ChromeInv(ts, docHasText, n, z, held)
  }

  /** A token a strip does not survive, and that closes no single-image or strip link. */
  lemma BreakStep(ts: seq<Token>, docHasText: bool, n: nat, z: Scan, held: seq<Held>)
    requires n < |ts| && ScanInv(ts, docHasText, n, z, held)
    requires !Transparent(ts, n) && !SoloClose(ts, n) && forall o: nat :: !StripLink(ts, o, n)
    requires
      var z' := ScanStep(z, docHasText, ts[n]);
      && z'.chain == [] && !z'.chainLive
      && z'.chrome == Flush(z).chrome + Offsets(ts, StandsOut(ts, docHasText, n))
    ensures ScanInv(ts, docHasText, n + 1, ScanStep(z, docHasText, ts[n]), [])
  {
    StepKeepsFlags(ts, docHasText, n, z);
    FlushSettles(ts, docHasText, n, z, held);
    QuietStep(ts, docHasText, n, Flush(z), ScanStep(z, docHasText, ts[n]), []);
    BreakEmptiesHeld(ts, n, ScanStep(z, docHasText, ts[n]));
  }

  /** A token a strip survives. */
  lemma PassStep(ts: seq<Token>, docHasText: bool, n: nat, z: Scan, held: seq<Held>)
    requires n < |ts| && ScanInv(ts, docHasText, n, z, held) && Transparent(ts, n)
    ensures ScanInv(ts, docHasText, n + 1, ScanStep(z, docHasText, ts[n]), held)
  {
    StepKeepsFlags(ts, docHasText, n, z);
    PassKeepsHeld(ts, n, z, ScanStep(z, docHasText, ts[n]), held);
    QuietStep(ts, docHasText, n, z, ScanStep(z, docHasText, ts[n]), held);
  }

  /** What the flags say about the link that closes at `n`. */
  lemma ClosingLink(ts: seq<Token>, n: nat, o: nat)
    requires n < |ts| && ts[n].kind == LinkClose && InLink(ts, o, n)
    ensures !Transparent(ts, n)
    ensures StripLink(ts, o, n) <==> NoText(ts, o + 1, n) && |ImgsIn(ts, o + 1, n)| >= 2
    ensures (exists m: nat :: SoloLink(ts, o, m, n)) <==> NoText(ts, o + 1, n) && |ImgsIn(ts, o + 1, n)| == 1
  {
    ImgsInTwo(ts, o + 1, n);
    ImgsInOne(ts, o + 1, n);
    if NoText(ts, o + 1, n) && |ImgsIn(ts, o + 1, n)| == 1 {
      var m: nat :| OnlyImg(ts, m, o + 1, n);
      assert SoloLink(ts, o, m, n);
    }
    if m: nat :| SoloLink(ts, o, m, n) {
      assert OnlyImg(ts, m, o + 1, n);
    }
  }

  /** No other link closes at `n`. */
  lemma OnlyOneCloses(ts: seq<Token>, n: nat, o: nat)
    requires n < |ts| && InLink(ts, o, n)
    ensures SoloClose(ts, n) <==> exists m: nat :: SoloLink(ts, o, m, n)
    ensures forall p: nat | StripLink(ts, p, n) :: p == o
  {
    if SoloClose(ts, n) {
      var p: nat, m: nat :| SoloLink(ts, p, m, n);
      OpenerUnique(ts, o, p, n);
    }
    forall p: nat | StripLink(ts, p, n) ensures p == o { OpenerUnique(ts, o, p, n); }
  }

  lemma StripSettles(ts: seq<Token>, docHasText: bool, n: nat, y: Scan, z': Scan, o: nat)
    requires n < |ts| && ts[n].kind == LinkClose && StripLink(ts, o, n) && !SoloClose(ts, n)
    requires ChromeInv(ts, docHasText, n, y, [])
    requires z'.chrome == y.chrome + Elements(ImgsIn(ts, o + 1, n))
    ensures ChromeInv(ts, docHasText, n + 1, z', [])
  {
    assert o + 1 <= n;
    hide StripLink, SoloClose, InLink, ImgsIn, ImgSet, DecidedSet, Offsets, Elements;
    var before, images := DecidedSet(ts, docHasText, n, []), ImgSet(ts, o + 1, n);
    calc {
      z'.chrome;
    ==  { ImgsInSet(ts, o + 1, n); }
      Offsets(ts, before) + Offsets(ts, images);
    ==  { OffsetsUnion(ts, before, images); }
      Offsets(ts, before + images);
    ==  { StripDecides(ts, docHasText, n, o); }
      Offsets(ts, DecidedSet(ts, docHasText, n + 1, []));
    }
  }

  lemma StripDecides(ts: seq<Token>, docHasText: bool, n: nat, o: nat)
    requires n < |ts| && ts[n].kind == LinkClose && StripLink(ts, o, n) && !SoloClose(ts, n)
    ensures DecidedSet(ts, docHasText, n + 1, []) == DecidedSet(ts, docHasText, n, []) + ImgSet(ts, o + 1, n)
  {
    OnlyOneCloses(ts, n, o);
    forall k: nat | k < n
      ensures Decided(ts, docHasText, k, n + 1, []) <==> Decided(ts, docHasText, k, n, []) || o < k
    {
      StripStep(ts, k, n);
      RunStep(ts, k, n);
      assert !IsHeld([], k);
    }
  }

  lemma StripStepKeeps(ts: seq<Token>, docHasText: bool, n: nat, z: Scan, held: seq<Held>, o: nat)
    requires n < |ts| && ScanInv(ts, docHasText, n, z, held)
    requires ts[n].kind == LinkClose && InLink(ts, o, n) && StripLink(ts, o, n)
    ensures ScanInv(ts, docHasText, n + 1, ScanStep(z, docHasText, ts[n]), [])
  {
    var z' := ScanStep(z, docHasText, ts[n]);
    ClosingLink(ts, n, o);
    OnlyOneCloses(ts, n, o);
    assert z.aOpen && !z.aText && z.aImgs == ImgsIn(ts, o + 1, n);
    StepKeepsFlags(ts, docHasText, n, z);
    BreakEmptiesHeld(ts, n, z');
    FlushSettles(ts, docHasText, n, z, held);
    assert z'.chrome == Flush(z).chrome + Elements(z.aImgs);
    StripSettles(ts, docHasText, n, Flush(z), z', o);
  }

  /** The chain takes the link in; a live chain makes it a neighbour of the last one. */
  lemma SoloKeepsHeld(ts: seq<Token>, n: nat, z: Scan, z': Scan, held: seq<Held>, o: nat, m: nat)
    requires n < |ts| && HeldInv(ts, n, z, held) && SoloLink(ts, o, m, n)
    requires z'.chain == z.chain + [ts[m].at] && z'.chainLive
    ensures HeldInv(ts, n + 1, z', held + [Held(m, n)])
  {
    var held' := held + [Held(m, n)];
    var n' := n + 1;
    assert SoloClose(ts, n);
    if held != [] { AdjacentIsTail(ts, held[|held| - 1].c, n); }
    forall d: nat ensures !Adjacent(ts, d, held'[0].c) {
      if held == [] && Adjacent(ts, d, n) { AdjacentIsTail(ts, d, n); }
    }
    SoloCloseOpensNothing(ts, n);
    forall d: nat | Tail(ts, d, n') ensures d == n { TailStep(ts, n, d); }
  }

  lemma SoloRunStep(ts: seq<Token>, docHasText: bool, n: nat, z: Scan, held: seq<Held>, o: nat, m: nat, k: nat)
    requires n < |ts| && HeldInv(ts, n, z, held) && SoloLink(ts, o, m, n) && k <= n
    ensures
      InRun(ts, k, n + 1) && !IsHeld(held + [Held(m, n)], k) <==> InRun(ts, k, n) && !IsHeld(held, k)
  {
    var n', held' := n + 1, held + [Held(m, n)];
    assert IsHeld(held', k) <==> IsHeld(held, k) || k == m by {
      assert held'[|held|] == Held(m, n);
      assert forall i | 0 <= i < |held| :: held'[i] == held[i];
    }
    if InRun(ts, k, n) {
      var p: nat, c: nat :| c < n && SoloLink(ts, p, k, c) && HasNeighbour(ts, c, n);
      NeighbourStep(ts, c, n);
      if k == m { SoloUnique(ts, o, m, n, p, c); }
    }
    if InRun(ts, k, n') && k != m {
      var p: nat, c: nat :| c < n' && SoloLink(ts, p, k, c) && HasNeighbour(ts, c, n');
      if c == n { SoloUniqueClose(ts, o, m, p, k, n); }
      NeighbourStep(ts, c, n);
      if Adjacent(ts, c, n) {
        AdjacentIsTail(ts, c, n);
        var q: nat :| SoloLink(ts, q, held[|held| - 1].m, held[|held| - 1].c);
        SoloUniqueClose(ts, p, k, q, held[|held| - 1].m, c);
        assert IsHeld(held, k);
      }
    }
  }

  lemma SoloStepKeeps(ts: seq<Token>, docHasText: bool, n: nat, z: Scan, held: seq<Held>, o: nat, m: nat)
    requires n < |ts| && ScanInv(ts, docHasText, n, z, held)
    requires ts[n].kind == LinkClose && InLink(ts, o, n) && SoloLink(ts, o, m, n)
    ensures ScanInv(ts, docHasText, n + 1, ScanStep(z, docHasText, ts[n]), held + [Held(m, n)])
  {
    var z' := ScanStep(z, docHasText, ts[n]);
    ClosingLink(ts, n, o);
    OnlyOneCloses(ts, n, o);
    assert z.aOpen && !z.aText && z.aImgs == ImgsIn(ts, o + 1, n) && |z.aImgs| == 1;
    StepKeepsFlags(ts, docHasText, n, z);
    ImgsInOne(ts, o + 1, n);
    assert z'.chain == z.chain + [ts[m].at] && z'.chrome == z.chrome;
    SoloKeepsHeld(ts, n, z, z', held, o, m);
    SoloSettles(ts, docHasText, n, z, held, o, m);
  }

  lemma SoloSettles(ts: seq<Token>, docHasText: bool, n: nat, z: Scan, held: seq<Held>, o: nat, m: nat)
    requires n < |ts| && HeldInv(ts, n, z, held) && SoloLink(ts, o, m, n) && !StripLink(ts, o, n)
    ensures DecidedSet(ts, docHasText, n + 1, held + [Held(m, n)]) == DecidedSet(ts, docHasText, n, held)
  {
    OnlyOneCloses(ts, n, o);
    forall k | 0 <= k < n && ts[k].kind == Img
      ensures Decided(ts, docHasText, k, n + 1, held + [Held(m, n)]) <==> Decided(ts, docHasText, k, n, held)
    {
      StripStep(ts, k, n);
      SoloRunStep(ts, docHasText, n, z, held, o, m, k);
    }
  }

  lemma CloseKeepsScan(ts: seq<Token>, docHasText: bool, n: nat, z: Scan, held: seq<Held>, o: nat)
    returns (held': seq<Held>)
    requires n < |ts| && ScanInv(ts, docHasText, n, z, held) && ts[n].kind == LinkClose && InLink(ts, o, n)
    ensures ScanInv(ts, docHasText, n + 1, ScanStep(z, docHasText, ts[n]), held')
  {
    ClosingLink(ts, n, o);
    if StripLink(ts, o, n) {
      StripStepKeeps(ts, docHasText, n, z, held, o);
      held' := [];
    } else if m: nat :| SoloLink(ts, o, m, n) {
      SoloStepKeeps(ts, docHasText, n, z, held, o, m);
      held' := held + [Held(m, n)];
    } else {
      TextCloseKeeps(ts, docHasText, n, z, held, o);
      held' := [];
    }
  }

  lemma TextCloseKeeps(ts: seq<Token>, docHasText: bool, n: nat, z: Scan, held: seq<Held>, o: nat)
    requires n < |ts| && ScanInv(ts, docHasText, n, z, held) && ts[n].kind == LinkClose && InLink(ts, o, n)
    requires !StripLink(ts, o, n) && !exists m: nat :: SoloLink(ts, o, m, n)
    ensures ScanInv(ts, docHasText, n + 1, ScanStep(z, docHasText, ts[n]), [])
  {
    ClosingLink(ts, n, o);
    OnlyOneCloses(ts, n, o);
    assert z.aOpen && (z.aText <==> !NoText(ts, o + 1, n)) && z.aImgs == ImgsIn(ts, o + 1, n);
    assert ScanStep(z, docHasText, ts[n]) == Flush(z).(chainLive := false, aOpen := false, aImgs := []);
    assert StandsOut(ts, docHasText, n) == {};
    BreakStep(ts, docHasText, n, z, held);
  }

  lemma PlainKeepsScan(ts: seq<Token>, docHasText: bool, n: nat, z: Scan, held: seq<Held>)
    requires n < |ts| && ScanInv(ts, docHasText, n, z, held) && !Transparent(ts, n) && ts[n].kind != LinkClose
    ensures ScanInv(ts, docHasText, n + 1, ScanStep(z, docHasText, ts[n]), [])
  {
    if ts[n].kind == Img {
      assert !z.aOpen;
      assert Offsets(ts, {n}) == {ts[n].at};
    } else {
      assert StandsOut(ts, docHasText, n) == {};
    }
    BreakStep(ts, docHasText, n, z, held);
  }

  lemma StepKeepsScan(ts: seq<Token>, docHasText: bool, n: nat, z: Scan, held: seq<Held>) returns (held': seq<Held>)
    requires n < |ts| && ScanInv(ts, docHasText, n, z, held)
    ensures ScanInv(ts, docHasText, n + 1, ScanStep(z, docHasText, ts[n]), held')
  {
    if Transparent(ts, n) {
      PassStep(ts, docHasText, n, z, held);
      held' := held;
    } else if ts[n].kind == LinkClose {
      var o: nat :| InLink(ts, o, n);
      held' := CloseKeepsScan(ts, docHasText, n, z, held, o);
    } else {
      PlainKeepsScan(ts, docHasText, n, z, held);
      held' := [];
    }
  }

  lemma StartHolds(ts: seq<Token>, docHasText: bool)
    ensures ScanInv(ts, docHasText, 0, Start, [])
  {
  }

  lemma {:induction false} ScanHolds(ts: seq<Token>, docHasText: bool, n: nat) returns (held: seq<Held>)
    requires n <= |ts|
    ensures ScanInv(ts, docHasText, n, After(ts, docHasText, n), held)
  {
    hide ScanInv, ScanStep;
    if n == 0 {
      StartHolds(ts, docHasText);
      held := [];
    } else {
      held := ScanHolds(ts, docHasText, n - 1);
      held := StepKeepsScan(ts, docHasText, n - 1, After(ts, docHasText, n - 1), held);
    }
  }

  /**
   * On every token stream the one-pass scan finds exactly the structural chrome:
   * mastheads of a document with text, bullets, strips within one link, and runs
   * of at least two single-image links.
   */
  lemma ScanFindsExactlyChrome(ts: seq<Token>)
    ensures Flush(After(ts, !NoText(ts, 0, |ts|), |ts|)).chrome == Offsets(ts, set k | 0 <= k < |ts| && IsChrome(ts, k))
  {
    var docHasText := !NoText(ts, 0, |ts|);
    var held := ScanHolds(ts, docHasText, |ts|);
    FlushSettles(ts, docHasText, |ts|, After(ts, docHasText, |ts|), held);
    assert DecidedSet(ts, docHasText, |ts|, []) == set k | 0 <= k < |ts| && IsChrome(ts, k);
  }

  // ----- The scanners of the source -------------------------------------------------

  /** The offsets of the structural chrome of an HTML text. */
  ghost function ChromeOffsets(html: string): set<nat> {
    var ts := Tokens(html, 0);
    Offsets(ts, set k | 0 <= k < |ts| && IsChrome(ts, k))
  }

  lemma TokenAt(html: string, i: nat, n: nat)
    requires i < |html| && n <= |Tokens(html, 0)| && Tokens(html, 0)[n..] == Tokens(html, i)
    ensures n < |Tokens(html, 0)| && Tokens(html, 0)[n] == Token(KindAt(html, i), i)
    ensures Tokens(html, 0)[n + 1..] == Tokens(html, NextAt(html, i))
  {
    assert Tokens(html, 0)[n] == Tokens(html, i)[0];
    assert Tokens(html, 0)[n + 1..] == Tokens(html, i)[1..];
  }

  /** `has_visible_text` */
  method HasVisibleText(html: string) returns (found: bool)
    ensures found <==> exists k :: 0 <= k < |Tokens(html, 0)| && Tokens(html, 0)[k].kind == Visible
  {
    ghost var ts := Tokens(html, 0);
    ghost var n := 0;
    var i := 0;
    hide Find, BlankLen, StartsTag;
    while i < |html|
      invariant i <= |html| && n <= |ts| && ts[n..] == Tokens(html, i)
      invariant forall k | 0 <= k < n :: ts[k].kind != Visible
      decreases |html| - i
    {
      TokenAt(html, i, n);
      if html[i] == '<' {
        i := TagEnd(html, i);
      } else if BlankLen(html, i) > 0 {
        i := i + BlankLen(html, i);
      } else {
        return true;
      }
      n := n + 1;
    }
    assert n == |ts|;
    return false;
  }

  /** The flags and lists the scan carries along, updated in place. */
  class Scanner {
    var chrome: set<nat>
    var seenText: bool
    var liLeading: bool
    var aOpen: bool
    var aText: bool
    var aImgs: seq<nat>
    var chain: seq<nat>
    var chainLive: bool

    constructor ()
      ensures State() == Start
    {
      chrome, seenText, liLeading, aOpen, aText := {}, false, false, false, false;
      aImgs, chain, chainLive := [], [], false;
    }

    function State(): Scan reads this {
      Scan(chrome, seenText, liLeading, aOpen, aText, aImgs, chain, chainLive)
    }

    /** `flush_link_chain` */
    method FlushLinkChain()
      modifies this`chrome, this`chain
      ensures State() == Flush(old(State()))
    {
      if |chain| >= 2 {
        chrome := chrome + Elements(chain);
      }
      chain := [];
    }

    method BreakChain()
      modifies this`chrome, this`chain, this`chainLive
      ensures State() == Flush(old(State())).(chainLive := false)
    {
      FlushLinkChain();
      chainLive := false;
    }

    method CloseLink()
      requires aOpen
      modifies this
      ensures State() == ScanStep(old(State()), false, Token(LinkClose, 0))
    {
      if !aText && |aImgs| >= 2 {
        chrome := chrome + Elements(aImgs);
        BreakChain();
      } else if !aText && |aImgs| == 1 {
        if !chainLive {
          FlushLinkChain();
        }
        chain := chain + [aImgs[0]];
        chainLive := true;
      } else {
        BreakChain();
      }
      aOpen := false;
      aImgs := [];
    }

    /** The body of the scan's loop. */
    method Accept(kind: Kind, at: nat, docHasText: bool)
      modifies this
      ensures State() == ScanStep(old(State()), docHasText, Token(kind, at))
    {
      match kind {
        case Blank =>
        case Break =>
        case Visible =>
          BreakChain();
          seenText, liLeading := true, false;
          if aOpen {
            aText := true;
          }
        case Img =>
          if (docHasText && !seenText) || liLeading {
            chrome := chrome + {at};
          }
          liLeading := false;
          if aOpen {
            aImgs := aImgs + [at];
          } else {
            BreakChain();
          }
        case LinkClose =>
          if aOpen {
            CloseLink();
          }
        case LinkOpen =>
          aOpen, aText, aImgs := true, false, [];
        case Item =>
          BreakChain();
          liLeading := true;
        case Other =>
          BreakChain();
      }
    }
  }

  /** `chrome_image_offsets` */
  method ChromeImageOffsets(html: string) returns (chrome: set<nat>)
    ensures chrome == ChromeOffsets(html)
  {
    var docHasText := HasVisibleText(html);
    ghost var ts := Tokens(html, 0);
    ghost var n := 0;
    var scanner := new Scanner();
    var i := 0;
    while i < |html|
      invariant i <= |html| && n <= |ts| && ts[n..] == Tokens(html, i)
      invariant scanner.State() == After(ts, docHasText, n)
      decreases |html| - i
    {
      TokenAt(html, i, n);
      scanner.Accept(KindAt(html, i), i, docHasText);
      i, n := NextAt(html, i), n + 1;
    }
    assert n == |ts|;
    scanner.FlushLinkChain();
    chrome := scanner.chrome;
    ScanFindsExactlyChrome(ts);
    assert docHasText <==> !NoText(ts, 0, |ts|);
  }
}
