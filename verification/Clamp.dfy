/**
 * `clamp_to_matrix_limit` (src/services/content.rs): keeps a message's two bodies
 * below the event size limit. Sizes are in UTF-8 bytes.
 */
module Clamp {
  import opened Wrappers
  import opened Text

  function Utf8Len(c: char): (n: nat)
    ensures 1 <= n <= 4
  {
    if c < '\U{80}' then 1 else if c < '\U{800}' then 2 else if c < '\U{10000}' then 3 else 4
  }

  /** `str::len` */
  function ByteLen(s: string): nat {
    if s == "" then 0 else Utf8Len(s[0]) + ByteLen(s[1..])
  }

  /** The character that starts at byte `b`, if one does or the text ends there. */
  function CharAt(s: string, b: nat): (r: Option<nat>)
    ensures r.Some? ==> r.value <= |s|
  {
    if b == 0 then Some(0)
    else if s == "" || b < Utf8Len(s[0]) then None
    else
      var rest := CharAt(s[1..], b - Utf8Len(s[0]));
      if rest.Some? then Some(rest.value + 1) else None
  }

  /** How many leading characters fit into `max` bytes. */
  function Fitting(s: string, max: nat): (n: nat)
    ensures n <= |s|
  {
    if s == "" || Utf8Len(s[0]) > max then 0 else 1 + Fitting(s[1..], max - Utf8Len(s[0]))
  }

  /** The last space or newline before index `n`. */
  function LastBreak(s: string, n: nat): (r: Option<nat>)
    requires n <= |s|
    ensures r.Some? ==> r.value < n && (s[r.value] == ' ' || s[r.value] == '\n')
  {
    if n == 0 then None
    else if s[n - 1] == ' ' || s[n - 1] == '\n' then Some(n - 1)
    else LastBreak(s, n - 1)
  }

  /** Where the kept text ends: the last break, unless it is 200 bytes back. */
  function Cut(s: string, max: nat): (cut: nat)
    ensures cut <= Fitting(s, max)
  {
    var n := Fitting(s, max);
    var w := LastBreak(s, n);
    if w.Some? && ByteLen(s[w.value..n]) < 200 then w.value else n
  }

  function Clamped(s: string, max: nat): string {
    if ByteLen(s) <= max then s else TrimEnd(s[..Cut(s, max)])
  }

  // ----- Byte arithmetic --------------------------------------------------------------

  lemma {:induction false} ByteLenConcat(a: string, b: string)
    ensures ByteLen(a + b) == ByteLen(a) + ByteLen(b)
  {
    if a == "" {
      assert a + b == b;
    } else {
      assert (a + b)[1..] == a[1..] + b;
      ByteLenConcat(a[1..], b);
    }
  }

  lemma ByteLenSplit(s: string, k: nat)
    requires k <= |s|
    ensures ByteLen(s) == ByteLen(s[..k]) + ByteLen(s[k..])
  {
    ByteLenConcat(s[..k], s[k..]);
    assert s == s[..k] + s[k..];
  }

  lemma {:induction false} ByteLenBounds(s: string)
    ensures |s| <= ByteLen(s) <= 4 * |s|
  {
    if s != "" { ByteLenBounds(s[1..]); }
  }

  /** The characters that fit do fit, and one more does not. */
  lemma {:induction false} FittingIsMost(s: string, max: nat)
    ensures
      var n := Fitting(s, max);
      && ByteLen(s[..n]) <= max
      && (n < |s| ==> max < ByteLen(s[..n]) + Utf8Len(s[n]))
      && (n == |s| <==> ByteLen(s) <= max)
  {
    var n := Fitting(s, max);
    if n > 0 {
      FittingIsMost(s[1..], max - Utf8Len(s[0]));
      assert s[..n][1..] == s[1..][..n - 1];
    } else if s != "" {
      ByteLenBounds(s[1..]);
    }
    if n == |s| { assert s[..n] == s; }
  }

  /** On a character boundary the byte index says how many characters fit. */
  lemma {:induction false} BoundaryFits(s: string, b: nat)
    ensures CharAt(s, b).Some? ==> Fitting(s, b) == CharAt(s, b).value && ByteLen(s[..Fitting(s, b)]) == b
    ensures CharAt(s, b).None? ==> b > 0 && Fitting(s, b) == Fitting(s, b - 1)
  {
    if b > 0 && s != "" && b >= Utf8Len(s[0]) {
      var w := Utf8Len(s[0]);
      BoundaryFits(s[1..], b - w);
      if CharAt(s, b).Some? { assert s[..Fitting(s, b)][1..] == s[1..][..Fitting(s[1..], b - w)]; }
    }
  }

  // ----- The source's functions ----------------------------------------------------------

  method ClampUtf8(s: string, maxBytes: nat) returns (out: string)
    ensures out == Clamped(s, maxBytes)
  {
    if ByteLen(s) <= maxBytes {
      return s;
    }
    var end: nat := maxBytes;
    while end > 0 && CharAt(s, end).None?
      invariant end <= maxBytes && Fitting(s, end) == Fitting(s, maxBytes)
    {
      BoundaryFits(s, end);
      end := end - 1;
    }
    BoundaryFits(s, end);
    var n := CharAt(s, end).value;
    var ws := LastBreak(s, n);
    if ws.Some? {
      ByteLenSplit(s[..n], ws.value);
      assert s[..n][..ws.value] == s[..ws.value] && s[..n][ws.value..] == s[ws.value..n];
      if end - ByteLen(s[..ws.value]) < 200 {
        n := ws.value;
      }
    }
    out := TrimEnd(s[..n]);
  }

  const BUDGET: nat := 57_000
  const EVENT_LIMIT: nat := 65_535
  const NOTICE := "\n\n[Message truncated \U{2014} too large for Matrix; view the full email in your mail client.]"

  datatype Bodies = Bodies(plain: string, html: Option<string>)

  function HtmlLen(html: Option<string>): nat {
    if html.Some? then ByteLen(html.value) else 0
  }

  function Size(b: Bodies): nat {
    ByteLen(b.plain) + HtmlLen(b.html)
  }

  /** An HTML body over the budget by itself is dropped. */
  function KeptHtml(html: Option<string>): (kept: Option<string>)
    ensures HtmlLen(kept) <= BUDGET && (kept == html || kept.None?)
  {
    if HtmlLen(html) <= BUDGET then html else None
  }

  function Allowance(html: Option<string>): nat {
    BUDGET - HtmlLen(KeptHtml(html))
  }

  /** The room a cut plain body has before its notice. */
  function RoomFor(notice: string, html: Option<string>): nat {
    if Allowance(html) < ByteLen(notice) then 0 else Allowance(html) - ByteLen(notice)
  }

  /** `clamp_to_matrix_limit` with its notice. */
  function Bounded(notice: string, plain: string, html: Option<string>): Bodies {
    if ByteLen(plain) <= Allowance(html) then Bodies(plain, KeptHtml(html))
    else Bodies(Clamped(plain, RoomFor(notice, html)) + notice, KeptHtml(html))
  }

  method ClampToMatrixLimit(plain: string, html: Option<string>) returns (out: Bodies)
    ensures out == Bounded(NOTICE, plain, html)
  {
    hide Clamped, ByteLen;
    var kept := KeptHtml(html);
    var allowance := BUDGET - HtmlLen(kept);
    if ByteLen(plain) <= allowance {
      return Bodies(plain, kept);
    }
    var keep := if allowance < ByteLen(NOTICE) then 0 else allowance - ByteLen(NOTICE);
    var text := ClampUtf8(plain, keep);
    out := Bodies(text + NOTICE, kept);
  }

  // ----- Main results ---------------------------------------------------------------------

  lemma {:induction false} TrimEndIsPrefix(s: string)
    ensures TrimEnd(s) <= s
  {
    if s != "" && IsWhitespace(s[|s| - 1]) { TrimEndIsPrefix(s[..|s| - 1]); }
  }

  lemma PrefixIsShorter(a: string, b: string)
    requires a <= b
    ensures ByteLen(a) <= ByteLen(b)
  {
    ByteLenSplit(b, |a|);
  }

  /**
   * The kept text is a prefix of whole characters within the limit. Where
   * something is cut off, at most 202 bytes of room and the trailing blanks of
   * the kept text go unused.
   */
  lemma ClampedIsLargePrefix(s: string, max: nat)
    ensures Clamped(s, max) <= s && ByteLen(Clamped(s, max)) <= max
    ensures ByteLen(s) > max ==>
      Clamped(s, max) == TrimEnd(s[..Cut(s, max)]) && ByteLen(s[..Cut(s, max)]) + 202 >= max
  {
    hide Fitting, LastBreak, Utf8Len;
    if ByteLen(s) > max {
      var n, cut := Fitting(s, max), Cut(s, max);
      FittingIsMost(s, max);
      TrimEndIsPrefix(s[..cut]);
      PrefixIsShorter(s[..cut], s[..n]);
      PrefixIsShorter(TrimEnd(s[..cut]), s[..cut]);
      ByteLenSplit(s[..n], cut);
      assert s[..n][..cut] == s[..cut] && s[..n][cut..] == s[cut..n];
      assert s[n..n] == "";
    }
  }

  lemma {:induction false} LastBreakIsLast(s: string, n: nat)
    requires n <= |s|
    ensures
      var w := LastBreak(s, n);
      forall i | (if w.Some? then w.value + 1 else 0) <= i < n :: !IsBreak(s[i])
    decreases n
  {
    if n > 0 && s[n - 1] != ' ' && s[n - 1] != '\n' { LastBreakIsLast(s, n - 1); }
  }

  predicate IsBreak(c: char) {
    c == ' ' || c == '\n'
  }

  /** The first `n` characters are all that fit. */
  ghost predicate MostThatFit(s: string, max: nat, n: nat) {
    n < |s| && ByteLen(s[..n]) <= max < ByteLen(s[..n + 1])
  }

  /** A text that is too long is cut at the last space or newline that fits, if one stands less than 200 bytes back. */
  lemma ClampedAtBreak(s: string, max: nat, n: nat, i: nat)
    requires MostThatFit(s, max, n) && i < n && IsBreak(s[i]) && ByteLen(s[i..n]) < 200
    requires forall j | i < j < n :: !IsBreak(s[j])
    ensures Clamped(s, max) == TrimEnd(s[..i])
  {
    FittingIs(s, max, n);
    LastBreakIsLast(s, n);
    assert LastBreak(s, n) == Some(i) by {
      var w := LastBreak(s, n);
      hide LastBreak;
      assert IsBreak(s[i]);
    }
    hide Fitting, LastBreak, TrimEnd, ByteLen;
  }

  /** And otherwise after its last whole character that fits. */
  lemma ClampedInWord(s: string, max: nat, n: nat)
    requires MostThatFit(s, max, n) && forall j | 0 <= j < n && IsBreak(s[j]) :: ByteLen(s[j..n]) >= 200
    ensures Clamped(s, max) == TrimEnd(s[..n])
  {
    FittingIs(s, max, n);
    var w := LastBreak(s, n);
    assert w.Some? ==> IsBreak(s[w.value]);
    hide Fitting, LastBreak, TrimEnd, ByteLen;
  }

  lemma PrefixGrows(s: string, a: nat, b: nat)
    requires a <= b <= |s|
    ensures ByteLen(s[..a]) <= ByteLen(s[..b])
    ensures b == a + 1 ==> ByteLen(s[..b]) == ByteLen(s[..a]) + Utf8Len(s[a])
  {
    ByteLenSplit(s[..b], a);
    assert s[..b][..a] == s[..a] && s[..b][a..] == s[a..b];
    if b == a + 1 { assert s[a..b] == [s[a]] && ByteLen([s[a]]) == Utf8Len(s[a]); }
  }

  lemma FittingIs(s: string, max: nat, n: nat)
    requires MostThatFit(s, max, n)
    ensures Fitting(s, max) == n && ByteLen(s) > max
  {
    var m := Fitting(s, max);
    FittingIsMost(s, max);
    PrefixGrows(s, n + 1, |s|);
    assert s[..|s|] == s;
    if m < |s| { PrefixGrows(s, m, m + 1); }
    PrefixGrows(s, if m < n then m + 1 else n, n);
    PrefixGrows(s, if n < m then n + 1 else m, m);
    hide Fitting, ByteLen, Utf8Len;
  }

  lemma NoticeIsShort()
    ensures 0 < ByteLen(NOTICE) < EVENT_LIMIT - BUDGET
  {
    hide ByteLen;
    ByteLenBounds(NOTICE);
  }

  /**
   * The two bodies are within the budget if and only if the plain body fitted
   * beside the kept HTML or the HTML left room for the notice; in the other case
   * they pass it by the notice at most.
   */
  lemma WithinBudgetIffRoomForNotice(notice: string, plain: string, html: Option<string>)
    ensures
      var out := Bounded(notice, plain, html);
      && (Size(out) <= BUDGET <==> ByteLen(plain) <= Allowance(html) || ByteLen(notice) <= Allowance(html))
      && Size(out) <= BUDGET + ByteLen(notice)
  {
    hide Clamped;
    if ByteLen(plain) > Allowance(html) {
      ClampedIsLargePrefix(plain, RoomFor(notice, html));
      ByteLenConcat(Clamped(plain, RoomFor(notice, html)), notice);
      hide ByteLen;
    }
  }

  /** With the notice of the source the bodies stay below the event size limit. */
  lemma BodiesFitAnEvent(plain: string, html: Option<string>)
    ensures Size(Bounded(NOTICE, plain, html)) < EVENT_LIMIT
  {
    hide Bounded, ByteLen;
    NoticeIsShort();
    WithinBudgetIffRoomForNotice(NOTICE, plain, html);
  }

  /**
   * Bodies that fit together are left alone; HTML is kept whole or not at all; a cut
   * plain body is a prefix and the notice.
   */
  lemma FittingBodiesAreUnchanged(notice: string, plain: string, html: Option<string>)
    ensures Size(Bodies(plain, html)) <= BUDGET ==> Bounded(notice, plain, html) == Bodies(plain, html)
    ensures Bounded(notice, plain, html).html == if HtmlLen(html) <= BUDGET then html else None
    ensures
      var out := Bounded(notice, plain, html).plain;
      out == plain || exists k :: 0 <= k <= |plain| && out == plain[..k] + notice
  {
    hide Clamped, ByteLen;
    if ByteLen(plain) > Allowance(html) {
      var kept := Clamped(plain, RoomFor(notice, html));
      ClampedIsLargePrefix(plain, RoomFor(notice, html));
      assert Bounded(notice, plain, html).plain == plain[..|kept|] + notice;
    }
  }
}
