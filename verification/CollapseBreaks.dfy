/**
 * `collapse_breaks` (src/services/content.rs): at most two `<br>` in a row, none
 * at either end. Blanks between breaks are the ASCII ones; form feed is not one.
 */
module CollapseBreaks {
  import opened Text

  const BR := "<br>"

  function PastAscii(s: string): (rest: string)
    ensures |rest| <= |s| && (rest != "" ==> !IsAsciiBlank(rest[0]))
  {
    if s != "" && IsAsciiBlank(s[0]) then PastAscii(s[1..]) else s
  }

  /** Blanks and then a break. */
  predicate BreakNext(s: string) {
    BR <= PastAscii(s)
  }

  function PastBreak(s: string): (rest: string)
    requires BreakNext(s)
    ensures |rest| < |s|
  {
    PastAscii(s)[4..]
  }

  /** The first loop, with `run` breaks just before `s`. */
  function Thinned(s: string, run: nat): string
    decreases |s|
  {
    if s == "" then ""
    else if BreakNext(s) then (if run < 2 then BR else "") + Thinned(PastBreak(s), run + 1)
    else [s[0]] + Thinned(s[1..], 0)
  }

  /** `<br>` are the last four characters. */
  predicate EndsInBreak(s: string) {
    |s| >= 4 && s[|s| - 4] == '<' && s[|s| - 3] == 'b' && s[|s| - 2] == 'r' && s[|s| - 1] == '>'
  }

  function DropLastBreaks(s: string): (r: string)
    ensures |r| <= |s|
    decreases |s|
  {
    if EndsInBreak(s) then DropLastBreaks(s[..|s| - 4]) else s
  }

  function DropFirstBreaks(s: string): string
    decreases |s|
  {
    if BR <= s then DropFirstBreaks(TrimStart(s[4..])) else s
  }

  function Collapsed(s: string): string {
    DropFirstBreaks(Trim(DropLastBreaks(Thinned(s, 0))))
  }

  // ----- The loops of the source ---------------------------------------------------------------

  method CollapseBreakRuns(s: string) returns (out: string)
    ensures out == Collapsed(s)
  {
    hide PastAscii, Thinned, DropLastBreaks, DropFirstBreaks;
    out := "";
    var i, run := 0, 0;
    while i < |s|
      invariant i <= |s| && Thinned(s, 0) == out + Thinned(s[i..], run)
      decreases |s| - i
    {
      var rest := s[i..];
      var j := SkipAscii(s, i);
      AtIsPrefix(s, j);
      if At(s, j, BR) {
        ThinnedAtBreak(rest, run, out);
        run := run + 1;
        if run <= 2 {
          out := out + BR;
        }
        i := j + 4;
      } else {
        ThinnedElsewhere(rest, run, out);
        assert rest[1..] == s[i + 1..];
        run := 0;
        out := out + [s[i]];
        i := i + 1;
      }
    }
    ThinnedOfNothing(run);
    assert s[i..] == "" && out + "" == out;
    out := DropBreaks(out);
  }

  method SkipAscii(s: string, i: nat) returns (j: nat)
    requires i <= |s|
    ensures i <= j <= |s| && s[j..] == PastAscii(s[i..])
  {
    j := i;
    while j < |s| && IsAsciiBlank(s[j])
      invariant i <= j <= |s| && PastAscii(s[j..]) == PastAscii(s[i..])
    {
      assert s[j..][1..] == s[j + 1..];
      j := j + 1;
    }
  }

  /** The two loops at the end. */
  method DropBreaks(s: string) returns (out: string)
    ensures out == DropFirstBreaks(Trim(DropLastBreaks(s)))
  {
    out := s;
    while EndsInBreak(out)
      invariant DropLastBreaks(out) == DropLastBreaks(s)
      decreases |out|
    {
      out := out[..|out| - 4];
    }
    out := Trim(out);
    while BR <= out
      invariant DropFirstBreaks(out) == DropFirstBreaks(Trim(DropLastBreaks(s)))
      decreases |out|
    {
      out := TrimStart(out[4..]);
    }
  }

  lemma AtIsPrefix(s: string, j: nat)
    requires j <= |s|
    ensures At(s, j, BR) <==> BR <= s[j..]
    ensures At(s, j, BR) ==> s[j..][4..] == s[j + 4..]
  {
    if j + 4 <= |s| { assert s[j..j + 4] == s[j..][..4]; }
  }

  lemma ThinnedAtBreak(s: string, run: nat, out: string)
    requires BreakNext(s)
    ensures out + Thinned(s, run) == (if run < 2 then out + BR else out) + Thinned(PastBreak(s), run + 1)
  {
    assert s != "" && Thinned(s, run) == (if run < 2 then BR else "") + Thinned(PastBreak(s), run + 1);
    hide Thinned, BreakNext;
    Regroup(out, BR, Thinned(PastBreak(s), run + 1));
    assert "" + Thinned(PastBreak(s), run + 1) == Thinned(PastBreak(s), run + 1);
  }

  lemma ThinnedElsewhere(s: string, run: nat, out: string)
    requires s != "" && !BreakNext(s)
    ensures out + Thinned(s, run) == (out + [s[0]]) + Thinned(s[1..], 0)
  {
    assert Thinned(s, run) == [s[0]] + Thinned(s[1..], 0);
    hide Thinned, BreakNext;
    Regroup(out, [s[0]], Thinned(s[1..], 0));
  }

  lemma ThinnedOfNothing(run: nat)
    ensures Thinned("", run) == ""
  {
  }

  // ----- Ladders --------------------------------------------------------------------------------

  /** How many breaks the text starts with, blanks aside. */
  function Lead(s: string): nat
    decreases |s|
  {
    if BreakNext(s) then 1 + Lead(PastBreak(s)) else 0
  }

  /** Nowhere three breaks in a row with only blanks between, and nowhere a blank before a break. */
  predicate Neat(s: string) {
    s == "" || (Lead(s) <= (if IsAsciiBlank(s[0]) then 0 else 2) && Neat(s[1..]))
  }

  /** What thinning copies, it copies from the start. */
  lemma {:induction false} CopiedStart(s: string, p: string)
    requires p <= Thinned(s, 0) && '<' !in p
    ensures p <= s
    decreases |p|
  {
    if p != "" {
      assert Thinned(s, 0)[0] == p[0] && p[0] in p;
      assert s != "" && !BreakNext(s);
      hide BreakNext;
      assert Thinned(s, 0)[1..] == Thinned(s[1..], 0);
      CopiedStart(s[1..], p[1..]);
      assert s[1..][..|p| - 1] == p[1..];
    }
  }

  /** A character that is not a break's start stays so before the thinned rest. */
  lemma NoNewBreak(s: string)
    requires s != "" && !IsAsciiBlank(s[0]) && !BreakNext(s)
    ensures !BreakNext([s[0]] + Thinned(s[1..], 0))
  {
    var t := [s[0]] + Thinned(s[1..], 0);
    assert PastAscii(t) == t && PastAscii(s) == s;
    assert t[1..] == Thinned(s[1..], 0);
    BreakStart(s);
    BreakStart(t);
    if BR[1..] <= t[1..] { CopiedStart(s[1..], BR[1..]); }
  }

  lemma BreakStart(s: string)
    ensures BR <= s <==> s != "" && s[0] == '<' && BR[1..] <= s[1..]
  {
    assert |BR| == 4 && BR[0] == '<';
    if |s| >= 4 { assert s[..4] == [s[0]] + s[1..][..3] && BR == [BR[0]] + BR[1..]; }
  }

  lemma LeadAfterBreak(y: string)
    ensures BreakNext(BR + y) && PastBreak(BR + y) == y
  {
    assert PastAscii(BR + y) == BR + y;
    assert (BR + y)[..4] == BR && (BR + y)[4..] == y;
  }

  /**
   * With `run` breaks before it a thinned text starts with at most the breaks that are
   * left; without a break next, with none.
   */
  lemma {:induction false} ThinnedLead(s: string, run: nat)
    ensures Lead(Thinned(s, run)) <= if run < 2 then 2 - run else 0
    ensures !BreakNext(s) ==> Lead(Thinned(s, run)) == 0
    decreases |s|
  {
    if s != "" {
      if BreakNext(s) {
        var rest := PastBreak(s);
        ThinnedLead(rest, run + 1);
        LeadAfterBreak(Thinned(rest, run + 1));
        assert "" + Thinned(rest, run + 1) == Thinned(rest, run + 1);
      } else if IsAsciiBlank(s[0]) {
        ThinnedLead(s[1..], 0);
        LeadPastBlank(s[0], Thinned(s[1..], 0));
        assert PastAscii(s) == PastAscii(s[1..]);
      } else {
        NoNewBreak(s);
      }
    }
  }

  lemma LeadPastBlank(c: char, t: string)
    requires IsAsciiBlank(c)
    ensures Lead([c] + t) == Lead(t)
  {
    assert ([c] + t)[1..] == t;
    assert PastAscii([c] + t) == PastAscii(t);
  }

  lemma NeatAfterSolid(c: char, y: string)
    requires Neat(y) && !IsAsciiBlank(c) && c != '<'
    ensures Neat([c] + y)
  {
    var t := [c] + y;
    assert t[1..] == y && PastAscii(t) == t;
    BreakStart(t);
  }

  lemma NeatAfterBreak(y: string)
    requires Neat(y) && Lead(y) <= 1
    ensures Neat(BR + y)
  {
    hide PastAscii;
    LeadAfterBreak(y);
    NeatAfterSolid('>', y);
    NeatAfterSolid('r', ">" + y);
    NeatAfterSolid('b', "r" + (">" + y));
    assert (BR + y)[1..] == "b" + ("r" + (">" + y)) && (BR + y)[0] == '<';
  }

  lemma {:induction false} ThinnedIsNeat(s: string, run: nat)
    ensures Neat(Thinned(s, run))
    decreases |s|
  {
    if s != "" {
      ThinnedLead(s, run);
      if BreakNext(s) {
        var rest := PastBreak(s);
        ThinnedIsNeat(rest, run + 1);
        ThinnedLead(rest, run + 1);
        if run < 2 {
          NeatAfterBreak(Thinned(rest, run + 1));
        } else {
          assert "" + Thinned(rest, run + 1) == Thinned(rest, run + 1);
        }
      } else {
        ThinnedIsNeat(s[1..], 0);
        assert Thinned(s, run)[1..] == Thinned(s[1..], 0);
      }
    }
  }

  // ----- Parts of a neat text ----------------------------------------------------------------------

  lemma {:induction false} PastAsciiOfPrefix(a: string, b: string)
    ensures PastAscii(a) != "" ==> PastAscii(a + b) == PastAscii(a) + b
    decreases |a|
  {
    if a != "" && IsAsciiBlank(a[0]) {
      assert (a + b)[1..] == a[1..] + b;
      PastAsciiOfPrefix(a[1..], b);
    }
  }

  lemma {:induction false} LeadOfPrefix(a: string, b: string)
    ensures Lead(a) <= Lead(a + b)
    decreases |a|
  {
    if BreakNext(a) {
      PastAsciiOfPrefix(a, b);
      assert (PastAscii(a) + b)[..4] == PastAscii(a)[..4] && PastBreak(a + b) == PastBreak(a) + b;
      LeadOfPrefix(PastBreak(a), b);
    }
  }

  lemma {:induction false} NeatPrefix(a: string, b: string)
    requires Neat(a + b)
    ensures Neat(a)
    decreases |a|
  {
    if a != "" {
      LeadOfPrefix(a, b);
      assert (a + b)[1..] == a[1..] + b;
      NeatPrefix(a[1..], b);
    }
  }

  lemma {:induction false} NeatSuffix(s: string, k: nat)
    requires k <= |s| && Neat(s)
    ensures Neat(s[k..])
    decreases k
  {
    if k > 0 {
      NeatSuffix(s[1..], k - 1);
      assert s[1..][k - 1..] == s[k..];
    }
  }

  lemma {:induction false} DroppedLast(s: string)
    ensures DropLastBreaks(s) <= s && !EndsInBreak(DropLastBreaks(s)) && Words(DropLastBreaks(s)) == Words(s)
    decreases |s|
  {
    if EndsInBreak(s) {
      var rest := s[..|s| - 4];
      DroppedLast(rest);
      WordsBeforeBreak(rest);
      assert s == rest + BR;
    }
  }

  lemma {:induction false} TrimmedEnd(s: string)
    ensures TrimEnd(s) <= s && Words(TrimEnd(s)) == Words(s)
    ensures TrimEnd(s) != "" ==> !IsWhitespace(TrimEnd(s)[|TrimEnd(s)| - 1])
    decreases |s|
  {
    if s != "" && IsWhitespace(s[|s| - 1]) {
      var rest := s[..|s| - 1];
      TrimmedEnd(rest);
      WordsBeforeBlank(rest, s[|s| - 1]);
      assert s == rest + [s[|s| - 1]];
    }
  }

  lemma EndsWithDrop(s: string, k: nat)
    requires k <= |s|
    ensures EndsWith(s, s[k..])
  {
  }

  lemma EndsWithTwice(s: string, t: string, r: string)
    requires EndsWith(s, t) && EndsWith(t, r)
    ensures EndsWith(s, r)
  {
    assert s[|s| - |t|..][|t| - |r|..] == s[|s| - |r|..];
  }

  lemma {:induction false} TrimmedStart(s: string)
    ensures EndsWith(s, TrimStart(s)) && Words(TrimStart(s)) == Words(s)
    ensures TrimStart(s) != "" ==> !IsWhitespace(TrimStart(s)[0])
    decreases |s|
  {
    EndsWithDrop(s, 0);
    if s != "" && IsWhitespace(s[0]) {
      TrimmedStart(s[1..]);
      EndsWithDrop(s, 1);
      hide EndsWith;
      EndsWithTwice(s, s[1..], TrimStart(s[1..]));
    } else {
      assert s[0..] == s;
    }
  }

  lemma {:induction false} DroppedFirst(s: string)
    ensures EndsWith(s, DropFirstBreaks(s)) && !(BR <= DropFirstBreaks(s)) && Words(DropFirstBreaks(s)) == Words(s)
    ensures s == "" || !IsWhitespace(s[0]) ==> DropFirstBreaks(s) == "" || !IsWhitespace(DropFirstBreaks(s)[0])
    decreases |s|
  {
    EndsWithDrop(s, 0);
    if BR <= s {
      var rest := s[4..];
      var t := TrimStart(rest);
      assert Words(s) == Words(rest) && DropFirstBreaks(s) == DropFirstBreaks(t);
      TrimmedStart(rest);
      EndsWithDrop(s, 4);
      hide EndsWith, Words, TrimStart, DropFirstBreaks;
      EndsWithTwice(s, rest, t);
      DroppedFirst(t);
      EndsWithTwice(s, t, DropFirstBreaks(t));
    } else {
      assert s[0..] == s;
    }
  }

  // ----- Words ---------------------------------------------------------------------------------------

  /** The text without breaks and blanks. */
  function Words(s: string): string
    decreases |s|
  {
    if s == "" then ""
    else if BR <= s then Words(s[4..])
    else if IsWhitespace(s[0]) then Words(s[1..])
    else [s[0]] + Words(s[1..])
  }

  /** A break starts a text that goes on as `w` only if it fits or `w` completes it. */
  lemma BreakAcross(s: string, w: string)
    requires s != "" && w != "" && (w[0] == '<' || IsWhitespace(w[0]))
    ensures BR <= s + w <==> BR <= s
  {
    if |s| < 4 {
      assert (s + w)[|s|] == w[0];
      assert BR[1] == 'b' && BR[2] == 'r' && BR[3] == '>';
    } else {
      assert (s + w)[..4] == s[..4];
    }
  }

  lemma {:induction false} WordsBeforeBlank(s: string, c: char)
    requires IsWhitespace(c)
    ensures Words(s + [c]) == Words(s)
    decreases |s|
  {
    var t := s + [c];
    if s == "" {
      assert t == [c] && t[1..] == "";
    } else {
      BreakAcross(s, [c]);
      if BR <= s {
        assert t[4..] == s[4..] + [c];
        WordsBeforeBlank(s[4..], c);
      } else {
        assert t[1..] == s[1..] + [c];
        WordsBeforeBlank(s[1..], c);
      }
    }
  }

  lemma {:induction false} WordsBeforeBreak(s: string)
    ensures Words(s + BR) == Words(s)
    decreases |s|
  {
    var t := s + BR;
    if s == "" {
      assert t == BR && t[4..] == "";
    } else {
      BreakAcross(s, BR);
      if BR <= s {
        assert t[4..] == s[4..] + BR;
        WordsBeforeBreak(s[4..]);
      } else {
        assert t[1..] == s[1..] + BR;
        WordsBeforeBreak(s[1..]);
      }
    }
  }

  lemma {:induction false} WordsPastAscii(s: string)
    ensures Words(PastAscii(s)) == Words(s)
    decreases |s|
  {
    if s != "" && IsAsciiBlank(s[0]) { WordsPastAscii(s[1..]); }
  }

  lemma {:induction false} ThinnedKeepsWords(s: string, run: nat)
    ensures Words(Thinned(s, run)) == Words(s)
    decreases |s|
  {
    if s != "" {
      if BreakNext(s) {
        var rest := PastBreak(s);
        ThinnedKeepsWords(rest, run + 1);
        WordsPastAscii(s);
        var y := Thinned(rest, run + 1);
        assert "" + y == y && (BR + y)[4..] == y && (BR + y)[..4] == BR;
      } else {
        ThinnedKeepsWords(s[1..], 0);
        var t := [s[0]] + Thinned(s[1..], 0);
        assert t[1..] == Thinned(s[1..], 0);
        if !IsAsciiBlank(s[0]) { NoNewBreak(s); }
        NoBreakHere(t);
        NoBreakHere(s);
      }
    }
  }

  lemma NoBreakHere(s: string)
    ensures BR <= s ==> BreakNext(s) && !IsAsciiBlank(s[0])
  {
  }

  // ----- Main results ------------------------------------------------------------------------------------

  /** The result starts with no break, is neat, and keeps all words in order. */
  lemma CollapsedIsNeat(s: string)
    ensures !(BR <= Collapsed(s)) && Neat(Collapsed(s)) && Words(Collapsed(s)) == Words(s)
    ensures Collapsed(s) != "" ==> !IsWhitespace(Collapsed(s)[0]) && !IsWhitespace(Collapsed(s)[|Collapsed(s)| - 1])
  {
    hide Words, Neat, Thinned, DropLastBreaks, TrimEnd, TrimStart, DropFirstBreaks, EndsWith, EndsInBreak, IsWhitespace;
    var thin := Thinned(s, 0);
    var front := DropLastBreaks(thin);
    var ended := TrimEnd(front);
    var started := TrimStart(ended);
    var result := DropFirstBreaks(started);
    ThinnedIsNeat(s, 0);
    ThinnedKeepsWords(s, 0);
    DroppedLast(thin);
    NeatBeginning(thin, front);
    TrimmedEnd(front);
    NeatBeginning(front, ended);
    TrimmedStart(ended);
    NeatEnding(ended, started);
    DroppedFirst(started);
    NeatEnding(started, result);
  }

  lemma NeatBeginning(s: string, a: string)
    requires Neat(s) && a <= s
    ensures Neat(a)
  {
    assert s == a + s[|a|..];
    NeatPrefix(a, s[|a|..]);
  }

  lemma NeatEnding(s: string, r: string)
    requires Neat(s) && EndsWith(s, r)
    ensures Neat(r) && (r != "" ==> s != "" && r[|r| - 1] == s[|s| - 1])
  {
    NeatSuffix(s, |s| - |r|);
  }

  /** A break of a neat text has no blanks before it. */
  lemma NeatBreak(s: string)
    requires s != "" && Neat(s) && BreakNext(s)
    ensures PastBreak(s) == s[4..] && s == BR + s[4..] && Lead(s) == 1 + Lead(s[4..])
  {
    assert !IsAsciiBlank(s[0]);
    assert PastAscii(s) == s;
  }

  lemma NeatRest(s: string)
    requires s != "" && Neat(s)
    ensures Neat(s[1..]) && Lead(s[1..]) <= 2
  {
  }

  lemma ThinnedBreak(s: string, run: nat)
    requires s != "" && BreakNext(s) && run < 2
    ensures Thinned(s, run) == BR + Thinned(PastBreak(s), run + 1)
  {
  }

  lemma ThinnedChar(s: string, run: nat)
    requires s != "" && !BreakNext(s)
    ensures Thinned(s, run) == [s[0]] + Thinned(s[1..], 0)
  {
  }

  /** Thinning leaves a neat text alone. */
  lemma {:induction false} NeatIsUnchanged(s: string, run: nat)
    requires Neat(s) && Lead(s) + run <= 2
    ensures Thinned(s, run) == s
    decreases |s|
  {
    if s != "" {
      hide Neat, Thinned, BreakNext, PastBreak, Lead;
      if BreakNext(s) {
        NeatBreak(s);
        NeatSuffix(s, 4);
        ThinnedBreak(s, run);
        NeatIsUnchanged(s[4..], run + 1);
      } else {
        NeatRest(s);
        ThinnedChar(s, run);
        NeatIsUnchanged(s[1..], 0);
        assert s == [s[0]] + s[1..];
      }
    }
  }

  /** A result stays as it is exactly when it does not end in a break. */
  lemma StableIffNoLastBreak(s: string)
    ensures Collapsed(Collapsed(s)) == Collapsed(s) <==> !EndsInBreak(Collapsed(s))
  {
    var r := Collapsed(s);
    CollapsedIsNeat(s);
    NeatIsUnchanged(r, 0);
    assert Thinned(r, 0) == r;
    hide Thinned, Neat, Words;
    if EndsInBreak(r) {
      var b := DropLastBreaks(r);
      TrimmedEnd(b);
      TrimmedStart(TrimEnd(b));
      DroppedFirst(Trim(b));
    } else {
      assert DropLastBreaks(r) == r && TrimEnd(r) == r && TrimStart(r) == r && DropFirstBreaks(r) == r;
    }
  }

  // ----- Which texts keep a last break --------------------------------------------------------------------

  function DropAsciiEnd(s: string): (r: string)
    ensures |r| <= |s| && (r != "" ==> !IsAsciiBlank(r[|r| - 1]))
  {
    if s != "" && IsAsciiBlank(s[|s| - 1]) then DropAsciiEnd(s[..|s| - 1]) else s
  }

  /** The text without the breaks at its very end and the ASCII blanks before each. */
  function Peeled(s: string): (r: string)
    ensures !EndsInBreak(r)
    decreases |s|
  {
    if EndsInBreak(s) then Peeled(DropAsciiEnd(s[..|s| - 4])) else s
  }

  /** Behind the text's last break stand blanks that the peeling does not take, and the text has words. */
  predicate LastBreakSurvives(s: string) {
    EndsInBreak(TrimEnd(Peeled(s))) && Words(s) != ""
  }

  ghost predicate AllBlank(w: string) {
    forall i | 0 <= i < |w| :: IsWhitespace(w[i])
  }

  ghost predicate AllAscii(w: string) {
    forall i | 0 <= i < |w| :: IsAsciiBlank(w[i])
  }

  /** Two breaks do not overlap. */
  lemma BreaksApart(y: string)
    ensures y != "" ==> (EndsInBreak(BR + y) <==> EndsInBreak(y))
    ensures y == "" ==> EndsInBreak(BR + y)
  {
    var t := BR + y;
    assert t[0] == '<' && t[1] == 'b' && t[2] == 'r' && t[3] == '>';
  }

  lemma CharBefore(c: char, y: string)
    requires !EndsInBreak(y) && !(BR <= [c] + y)
    ensures !EndsInBreak([c] + y)
  {
    BreakStart([c] + y);
    assert ([c] + y)[1..] == y;
  }

  lemma EndAfter(x: string, y: string)
    requires |y| >= 4
    ensures EndsInBreak(x + y) <==> EndsInBreak(y)
  {
  }

  /** The end of a text is the end of what follows its first break. */
  lemma PastBreakEnd(s: string)
    requires BreakNext(s)
    ensures PastBreak(s) == "" ==> EndsInBreak(s)
    ensures PastBreak(s) != "" ==>
      (EndsInBreak(PastBreak(s)) <==> EndsInBreak(s)) && PastBreak(s)[|PastBreak(s)| - 1] == s[|s| - 1]
  {
    var t, rest := PastAscii(s), PastBreak(s);
    PastAsciiIsEnd(s);
    var b := s[..|s| - |t|];
    assert s == b + t && t == BR + rest;
    EndAfter(b, t);
    BreaksApart(rest);
    assert rest == "" ==> t == BR;
  }

  lemma {:induction false} PastAsciiDrops(s: string) returns (k: nat)
    ensures k <= |s| && PastAscii(s) == s[k..] && AllAscii(s[..k])
    decreases |s|
  {
    hide IsAsciiBlank;
    if s != "" && IsAsciiBlank(s[0]) {
      var j := PastAsciiDrops(s[1..]);
      k := j + 1;
      assert s[1..][j..] == s[k..];
      forall i | 0 <= i < k ensures IsAsciiBlank(s[..k][i]) {
        if i > 0 { assert s[1..][..j][i - 1] == s[i]; }
      }
    } else {
      k := 0;
    }
  }

  lemma PastAsciiIsEnd(s: string)
    ensures EndsWith(s, PastAscii(s))
    ensures AllAscii(s) ==> PastAscii(s) == ""
    ensures s != "" && !IsAsciiBlank(s[|s| - 1]) ==> PastAscii(s) != ""
  {
    hide IsAsciiBlank;
    var k := PastAsciiDrops(s);
    var rest := PastAscii(s);
    hide PastAscii;
    if rest != "" {
      assert rest[0] == s[k];
    } else if s != "" {
      assert s[..k][|s| - 1] == s[|s| - 1];
    }
  }

  /** Thinning adds no break at the end, and keeps the last character of a text without one. */
  lemma {:induction false} ThinnedPlainEnd(s: string, run: nat)
    requires !EndsInBreak(s)
    ensures !EndsInBreak(Thinned(s, run))
    ensures s != "" ==> Thinned(s, run) != "" && Thinned(s, run)[|Thinned(s, run)| - 1] == s[|s| - 1]
    decreases |s|
  {
    hide Thinned, PastAscii;
    if s == "" {
      ThinnedOfNothing(run);
    } else if BreakNext(s) {
      var rest := PastBreak(s);
      ThinnedHead(s, run);
      PastBreakEnd(s);
      ThinnedPlainEnd(rest, run + 1);
      hide BreakNext, EndsInBreak;
      LastBehindBreak(Thinned(rest, run + 1), run);
    } else {
      var rest := s[1..];
      ThinnedHead(s, run);
      RestEndsPlain(s);
      ThinnedPlainEnd(rest, 0);
      PlainHead(s);
      CharBefore(s[0], Thinned(rest, 0));
      hide BreakNext, EndsInBreak;
      if rest == "" { ThinnedOfNothing(0); }
    }
  }

  lemma LastBehindBreak(t: string, run: nat)
    requires t != "" && !EndsInBreak(t)
    ensures
      var x := (if run < 2 then BR else "") + t;
      x != "" && !EndsInBreak(x) && x[|x| - 1] == t[|t| - 1]
  {
    BreaksApart(t);
    assert "" + t == t;
    hide EndsInBreak;
  }

  lemma RestEndsPlain(s: string)
    requires s != "" && !EndsInBreak(s)
    ensures !EndsInBreak(s[1..])
  {
    assert s == [s[0]] + s[1..];
    if |s[1..]| >= 4 { EndAfter([s[0]], s[1..]); }
  }

  lemma PlainHead(s: string)
    requires s != "" && !BreakNext(s)
    ensures !(BR <= [s[0]] + Thinned(s[1..], 0))
  {
    if !IsAsciiBlank(s[0]) { NoNewBreak(s); }
    NoBreakHere([s[0]] + Thinned(s[1..], 0));
  }

  lemma ThinnedHead(s: string, run: nat)
    requires s != ""
    ensures Thinned(s, run) ==
      if BreakNext(s) then (if run < 2 then BR else "") + Thinned(PastBreak(s), run + 1)
      else [s[0]] + Thinned(s[1..], 0)
  {
    hide BreakNext;
  }

  /** A break at the end stays one, unless two breaks stand before the text already. */
  lemma {:induction false} ThinnedBreakEnd(s: string, run: nat)
    requires EndsInBreak(s)
    ensures EndsInBreak(Thinned(s, run)) || (Thinned(s, run) == "" && run >= 2)
    decreases |s|
  {
    hide Thinned, PastAscii;
    ThinnedHead(s, run);
    if BreakNext(s) {
      var rest := PastBreak(s);
      PastBreakEnd(s);
      if rest == "" {
        ThinnedOfNothing(run + 1);
        BreakBefore("");
      } else {
        ThinnedBreakEnd(rest, run + 1);
        BreakBefore(Thinned(rest, run + 1));
      }
    } else {
      var rest := s[1..];
      assert s == [s[0]] + rest;
      NoBreakHere(s);
      BreakStart(s);
      EndAfter([s[0]], rest);
      ThinnedBreakEnd(rest, 0);
      EndAfter([s[0]], Thinned(rest, 0));
    }
  }

  lemma BreakBefore(y: string)
    requires y == "" || EndsInBreak(y)
    ensures EndsInBreak(BR + y) && "" + y == y
  {
    BreaksApart(y);
  }

  /** A blank tail is copied. */
  lemma {:induction false} ThinnedBlankTail(q: string, w: string, run: nat)
    requires AllBlank(w) && (q != "" ==> !IsWhitespace(q[|q| - 1]))
    ensures Thinned(q + w, run) == Thinned(q, run) + w
    decreases |q| + |w|
  {
    hide Thinned, PastAscii, BreakNext, PastBreak;
    var s := q + w;
    if w == "" {
      assert s == q && Thinned(q, run) + "" == Thinned(q, run);
    } else if q == "" {
      assert s == w;
      BlankHasNoBreak(w);
      ThinnedHead(w, run);
      ThinnedBlankTail("", w[1..], 0);
      ThinnedOfNothing(run);
      ThinnedOfNothing(0);
      assert "" + w[1..] == w[1..] && w == [w[0]] + w[1..];
    } else {
      SameBreakNext(q, w);
      ThinnedHead(s, run);
      ThinnedHead(q, run);
      if BreakNext(q) {
        var rest := PastBreak(q);
        PastBreakEnd(q);
        ThinnedBlankTail(rest, w, run + 1);
        Regroup(if run < 2 then BR else "", Thinned(rest, run + 1), w);
      } else {
        assert s[1..] == q[1..] + w;
        ThinnedBlankTail(q[1..], w, 0);
        Regroup([q[0]], Thinned(q[1..], 0), w);
      }
    }
  }

  lemma BlankHasNoBreak(w: string)
    requires AllBlank(w)
    ensures !BreakNext(w)
  {
    PastAsciiIsEnd(w);
    var t := PastAscii(w);
    if t != "" { assert t[0] == w[|w| - |t|]; }
    BreakStart(t);
  }

  /** What follows solid text does not change whether a break is next in it. */
  lemma SameBreakNext(q: string, x: string)
    requires q != "" && !IsAsciiBlank(q[|q| - 1]) && x != "" && (x[0] == '<' || IsWhitespace(x[0]))
    ensures BreakNext(q + x) <==> BreakNext(q)
    ensures BreakNext(q) ==> PastBreak(q + x) == PastBreak(q) + x
  {
    PastAsciiIsEnd(q);
    PastAsciiOfPrefix(q, x);
    BreakAcross(PastAscii(q), x);
  }

  /** A break behind solid text and ASCII blanks is copied without the blanks, or left out. */
  lemma {:induction false} ThinnedLastBreak(u: string, b: string, run: nat)
    requires AllAscii(b) && (u != "" ==> !IsAsciiBlank(u[|u| - 1]))
    ensures
      var t := Thinned(u + (b + BR), run);
      t == Thinned(u, run) || t == Thinned(u, run) + BR
    decreases |u|
  {
    hide Thinned, PastAscii;
    var x := b + BR;
    var s := u + x;
    if u == "" {
      assert s == x;
      AsciiThenBreak(b);
      ThinnedHead(x, run);
      ThinnedOfNothing(run);
      ThinnedOfNothing(run + 1);
    } else {
      assert b != "" ==> IsAsciiBlank(b[0]);
      SameBreakNext(u, x);
      ThinnedHead(s, run);
      ThinnedHead(u, run);
      if BreakNext(u) {
        var rest := PastBreak(u);
        PastBreakEnd(u);
        ThinnedLastBreak(rest, b, run + 1);
        Regroup(if run < 2 then BR else "", Thinned(rest, run + 1), BR);
      } else {
        assert s[1..] == u[1..] + x;
        ThinnedLastBreak(u[1..], b, 0);
        Regroup([u[0]], Thinned(u[1..], 0), BR);
      }
    }
  }

  lemma {:induction false} AsciiThenBreak(b: string)
    requires AllAscii(b)
    ensures PastAscii(b + BR) == BR
    decreases |b|
  {
    if b == "" {
      assert b + BR == BR;
    } else {
      assert (b + BR)[1..] == b[1..] + BR;
      AsciiThenBreak(b[1..]);
    }
  }

  lemma {:induction false} AsciiEndDropped(s: string)
    ensures DropAsciiEnd(s) <= s && AllAscii(s[|DropAsciiEnd(s)|..])
  {
    if s != "" && IsAsciiBlank(s[|s| - 1]) {
      var init := s[..|s| - 1];
      AsciiEndDropped(init);
      var k := |DropAsciiEnd(s)|;
      assert s[k..] == init[k..] + [s[|s| - 1]];
    }
  }

  /** A last break and the ASCII blanks before it are thinned to a break or to nothing. */
  lemma LastBreakDropped(s: string)
    requires EndsInBreak(s)
    ensures
      var u := DropAsciiEnd(s[..|s| - 4]);
      |u| < |s| && DropLastBreaks(Thinned(s, 0)) == DropLastBreaks(Thinned(u, 0))
  {
    var init := s[..|s| - 4];
    var u := DropAsciiEnd(init);
    var b := init[|u|..];
    AsciiEndDropped(init);
    SplitAtLastBreak(s, u);
    assert u != "" ==> !IsAsciiBlank(u[|u| - 1]);
    hide Thinned, DropAsciiEnd, EndsInBreak, IsAsciiBlank;
    ThinnedLastBreak(u, b, 0);
    BreakDropped(Thinned(u, 0));
  }

  lemma SplitAtLastBreak(s: string, u: string)
    requires EndsInBreak(s) && u <= s[..|s| - 4]
    ensures s == u + (s[..|s| - 4][|u|..] + BR)
  {
  }

  lemma BreakDropped(t: string)
    ensures DropLastBreaks(t + BR) == DropLastBreaks(t)
  {
    EndAfter(t, BR);
    assert (t + BR)[..|t|] == t;
  }

  /** Thinning and dropping the last breaks is thinning the peeled text. */
  lemma {:induction false} DroppedIsPeeled(s: string)
    ensures DropLastBreaks(Thinned(s, 0)) == Thinned(Peeled(s), 0)
    decreases |s|
  {
    hide Thinned, DropAsciiEnd;
    if EndsInBreak(s) {
      LastBreakDropped(s);
      DroppedIsPeeled(DropAsciiEnd(s[..|s| - 4]));
    } else {
      ThinnedPlainEnd(s, 0);
    }
  }

  lemma {:induction false} TrimEndSplits(s: string)
    ensures TrimEnd(s) <= s && AllBlank(s[|TrimEnd(s)|..])
    ensures TrimEnd(s) != "" ==> !IsWhitespace(TrimEnd(s)[|TrimEnd(s)| - 1])
    decreases |s|
  {
    hide IsWhitespace;
    if s != "" && IsWhitespace(s[|s| - 1]) {
      var init := s[..|s| - 1];
      TrimEndSplits(init);
      var k := |TrimEnd(init)|;
      assert TrimEnd(s) == TrimEnd(init) <= init;
      forall i | k <= i < |s| ensures IsWhitespace(s[i]) {
        if i < |s| - 1 { assert init[k..][i - k] == init[i] == s[i]; }
      }
      assert TrimEnd(init) == init[..k] == s[..k];
    }
  }

  /** Thinning commutes with right-trimming as far as a last break goes. */
  lemma TrimmedThinnedEnd(p: string)
    requires !EndsInBreak(p)
    ensures EndsInBreak(TrimEnd(Thinned(p, 0))) <==> EndsInBreak(TrimEnd(p))
  {
    var q := TrimEnd(p);
    var w := p[|q|..];
    TrimEndSplits(p);
    assert p == q + w;
    ThinnedBlankTail(q, w, 0);
    var t := Thinned(q, 0);
    TrimEndBlank(t, w);
    if q == "" {
      ThinnedOfNothing(0);
    } else if EndsInBreak(q) {
      ThinnedBreakEnd(q, 0);
      assert t[|t| - 4..][3] == t[|t| - 1];
      hide Thinned;
    } else {
      ThinnedPlainEnd(q, 0);
      hide Thinned;
    }
  }

  lemma {:induction false} TrimStartKeepsEnd(s: string)
    requires EndsInBreak(s)
    ensures EndsInBreak(TrimStart(s))
    decreases |s|
  {
    if IsWhitespace(s[0]) {
      assert |s| == 4 ==> s == BR;
      assert s == [s[0]] + s[1..];
      EndAfter([s[0]], s[1..]);
      TrimStartKeepsEnd(s[1..]);
    }
  }

  lemma LoneBreak()
    ensures DropFirstBreaks(BR) == "" && Words(BR) == ""
  {
    assert BR <= BR && BR[4..] == "" && TrimStart("") == "";
    assert DropFirstBreaks("") == "" && Words("") == "";
  }

  /** Dropping the first breaks leaves a last one exactly when there are words before it. */
  lemma {:induction false} DropFirstKeepsEnd(s: string)
    requires EndsInBreak(s) && !IsWhitespace(s[0])
    ensures EndsInBreak(DropFirstBreaks(s)) <==> Words(s) != ""
    decreases |s|
  {
    if BR <= s {
      var rest := s[4..];
      assert s == BR + rest;
      if rest == "" {
        assert s == BR;
        LoneBreak();
      } else {
        BreaksApart(rest);
        TrimmedStart(rest);
        TrimStartKeepsEnd(rest);
        DropFirstKeepsEnd(TrimStart(rest));
      }
    }
  }

  /** The result ends in a break exactly when the last break of the text survives. */
  lemma EndsInBreakIffSurvives(s: string)
    ensures EndsInBreak(Collapsed(s)) <==> LastBreakSurvives(s)
  {
    var thin := Thinned(s, 0);
    var front := DropLastBreaks(thin);
    var ended := TrimEnd(front);
    var started := TrimStart(ended);
    var result := DropFirstBreaks(started);
    DroppedIsPeeled(s);
    TrimmedThinnedEnd(Peeled(s));
    ThinnedKeepsWords(s, 0);
    DroppedLast(thin);
    TrimmedEnd(front);
    TrimmedStart(ended);
    DroppedFirst(started);
    EndsWithTwice(ended, started, result);
    hide Thinned, DropLastBreaks, TrimEnd, TrimStart, Words, DropFirstBreaks;
    if EndsInBreak(ended) {
      TrimStartKeepsEnd(ended);
      DropFirstKeepsEnd(started);
    } else if EndsInBreak(result) {
      EndsWithTwice(ended, result, BR);
    }
  }

  /**
   * Collapsing a result again changes nothing if and only if the last break of
   * the text does not survive: no blanks but peeled ones stand behind it, or
   * there are no words at all.
   */
  lemma CollapsingTwiceIffLastBreakGoes(s: string)
    ensures Collapsed(Collapsed(s)) == Collapsed(s) <==> !LastBreakSurvives(s)
  {
    hide Collapsed, LastBreakSurvives;
    EndsInBreakIffSurvives(s);
    StableIffNoLastBreak(s);
  }

  /** A last break with blanks behind it survives, so such a result collapses further. */
  lemma BreakBeforeBlankSurvives()
    ensures Collapsed("x<br> ") == "x<br>" && Collapsed("x<br>") == "x"
  {
    BlankSurvives();
    BreakDrops();
  }

  lemma BlankSurvives()
    ensures Collapsed("x<br> ") == "x<br>"
  {
    var s, y := "x<br> ", "<br> ";
    assert s[1..] == y && PastAscii(s) == s && PastAscii(y) == y && y[..4] == BR && y[4..] == " " && " "[1..] == "";
    assert PastAscii(" ") == "" && Thinned(" ", 1) == " " + Thinned("", 0) == " ";
    assert Thinned(y, 0) == BR + " " && Thinned(s, 0) == "x" + (BR + " ") == s;
    hide Thinned, PastAscii;
    assert s[|s| - 4..][0] == 'b' && DropLastBreaks(s) == s;
    var t := "x<br>";
    assert s[..5] == t && TrimEnd(t) == t && TrimEnd(s) == t && TrimStart(t) == t && DropFirstBreaks(t) == t;
  }

  lemma BreakDrops()
    ensures Collapsed("x<br>") == "x"
  {
    var t := "x<br>";
    assert t[1..] == BR && BR[4..] == "" && BR[..4] == BR && PastAscii(BR) == BR && PastAscii(t) == t;
    assert Thinned("", 1) == "" && Thinned(BR, 0) == BR + "" == BR;
    assert Thinned(t, 0) == "x" + BR == t;
    hide Thinned, PastAscii;
    assert t[1..] == BR && t[..1] == "x" && DropLastBreaks("x") == "x" && DropLastBreaks(t) == "x";
    assert TrimEnd("x") == "x" && TrimStart("x") == "x" && DropFirstBreaks("x") == "x";
  }

  // ----- What becomes of a ladder --------------------------------------------------------------------------

  /** Breaks, each behind the blanks of its gap. */
  function Ladder(gaps: seq<string>): string {
    if gaps == [] then "" else gaps[0] + BR + Ladder(gaps[1..])
  }

  function Breaks(n: nat): string {
    if n == 0 then "" else BR + Breaks(n - 1)
  }

  /** How many of `n` breaks remain when `run` stand before them. */
  function Kept(n: nat, run: nat): nat {
    if run >= 2 then 0 else if n + run <= 2 then n else 2 - run
  }

  ghost predicate Gaps(gaps: seq<string>) {
    forall i | 0 <= i < |gaps| :: AllAscii(gaps[i])
  }

  lemma RungNext(g: string, t: string)
    requires AllAscii(g)
    ensures BreakNext(g + BR + t) && PastBreak(g + BR + t) == t
  {
    AsciiThenBreak(g);
    PastAsciiOfPrefix(g + BR, t);
    assert (BR + t)[..4] == BR && (BR + t)[4..] == t;
  }

  lemma {:induction false} ThinnedPlain(b: string, run: nat)
    requires '<' !in b
    ensures Thinned(b, run) == b
    decreases |b|
  {
    if b != "" {
      PastAsciiIsEnd(b);
      BreakStart(PastAscii(b));
      assert PastAscii(b) != "" ==> PastAscii(b)[0] == b[|b| - |PastAscii(b)|];
      assert !BreakNext(b);
      hide PastAscii, BreakNext;
      ThinnedPlain(b[1..], 0);
      assert b == [b[0]] + b[1..];
    }
  }

  lemma {:induction false} ThinnedLadder(gaps: seq<string>, b: string, run: nat)
    requires Gaps(gaps) && '<' !in b
    ensures Thinned(Ladder(gaps) + b, run) == Breaks(Kept(|gaps|, run)) + b
    decreases |gaps|
  {
    hide Thinned, PastAscii, BreakNext, PastBreak, AllAscii;
    var s := Ladder(gaps) + b;
    if gaps == [] {
      assert s == b && "" + b == b;
      ThinnedPlain(b, run);
    } else {
      var rest := Ladder(gaps[1..]) + b;
      assert s == gaps[0] + BR + rest && |s| > 0;
      RungNext(gaps[0], rest);
      ThinnedHead(s, run);
      ThinnedLadder(gaps[1..], b, run + 1);
      KeptStep(|gaps|, run, b);
    }
  }

  lemma KeptStep(n: nat, run: nat, b: string)
    requires n > 0
    ensures (if run < 2 then BR else "") + (Breaks(Kept(n - 1, run + 1)) + b) == Breaks(Kept(n, run)) + b
  {
    var k := Kept(n - 1, run + 1);
    if run < 2 {
      assert Kept(n, run) == k + 1 && Breaks(k + 1) == BR + Breaks(k);
      Regroup(BR, Breaks(k), b);
    } else {
      assert Kept(n, run) == 0 && k == 0;
      assert "" + (Breaks(0) + b) == Breaks(0) + b;
    }
  }

  lemma PlainIsNoBreak(a: string, t: string)
    requires a != "" && '<' !in a && !IsAsciiBlank(a[|a| - 1])
    ensures !BreakNext(a + t)
  {
    var p := PastAscii(a);
    PastAsciiIsEnd(a);
    PastAsciiOfPrefix(a, t);
    BreakStart(p + t);
    hide PastAscii, IsAsciiBlank;
    assert p[0] == a[|a| - |p|];
  }

  lemma {:induction false} ThinnedBehindPlain(a: string, t: string)
    requires '<' !in a && (a != "" ==> !IsAsciiBlank(a[|a| - 1]))
    ensures Thinned(a + t, 0) == a + Thinned(t, 0)
    decreases |a|
  {
    hide Thinned, PastAscii, BreakNext;
    var s := a + t;
    if a == "" {
      assert s == t && "" + Thinned(t, 0) == Thinned(t, 0);
    } else {
      PlainIsNoBreak(a, t);
      ThinnedHead(s, 0);
      assert s[0] == a[0] && s[1..] == a[1..] + t;
      ThinnedBehindPlain(a[1..], t);
      assert a == [a[0]] + a[1..];
    }
  }

  /** Text without a `<` whose first and last characters show. */
  ghost predicate IsPlain(a: string) {
    a != "" && '<' !in a && !IsWhitespace(a[0]) && !IsWhitespace(a[|a| - 1])
  }

  /** What stands between two plain texts is not touched at the ends. */
  lemma EndsStay(a: string, n: nat, b: string)
    requires IsPlain(a) && IsPlain(b)
    ensures
      var s := a + (Breaks(n) + b);
      DropLastBreaks(s) == s && Trim(s) == s && DropFirstBreaks(s) == s
  {
    var s := a + (Breaks(n) + b);
    assert s[0] == a[0] && s[|s| - 1] == b[|b| - 1];
    if |b| >= 4 {
      assert s[|s| - 4] == b[|b| - 4];
    } else if EndsInBreak(s) {
      NoBreakAtEnd(a, n, b);
    }
    hide EndsInBreak, IsWhitespace;
  }

  lemma NoBreakAtEnd(a: string, n: nat, b: string)
    requires IsPlain(a) && IsPlain(b) && |b| < 4
    ensures !EndsInBreak(a + (Breaks(n) + b))
  {
    var s := a + (Breaks(n) + b);
    if n == 0 {
      assert s == a + b;
    } else {
      BreaksEnd(n);
      var m := Breaks(n);
      var k := |b|;
      assert s[|s| - 4] == m[|m| - 4 + k];
    }
  }

  lemma {:induction false} BreaksEnd(n: nat)
    requires n > 0
    ensures EndsInBreak(Breaks(n))
  {
    if n > 1 {
      BreaksEnd(n - 1);
      EndAfter(BR, Breaks(n - 1));
    } else {
      assert Breaks(1) == BR + Breaks(0) && Breaks(0) == "";
    }
  }

  /** Between two plain texts one break stays, and any more, whatever blanks are between them, become two. */
  lemma LadderBecomesTwo(a: string, gaps: seq<string>, b: string)
    requires IsPlain(a) && IsPlain(b) && Gaps(gaps) && gaps != []
    ensures Collapsed(a + (Ladder(gaps) + b)) == a + ((if |gaps| == 1 then BR else BR + BR) + b)
  {
    var n := Kept(|gaps|, 0);
    assert !IsAsciiBlank(a[|a| - 1]);
    ThinnedBehindPlain(a, Ladder(gaps) + b);
    ThinnedLadder(gaps, b, 0);
    EndsStay(a, n, b);
    assert Breaks(2) == BR + Breaks(1) && Breaks(1) == BR + Breaks(0) && BR + Breaks(0) == BR;
    hide Thinned, DropLastBreaks, DropFirstBreaks, Trim, IsWhitespace, Gaps, Ladder;
  }
}
