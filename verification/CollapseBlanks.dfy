/**
 * `collapse_blank_runs` (src/services/content.rs): runs of two or more blank
 * units, whitespace characters or no-break entities, become one space.
 */
module CollapseBlanks {
  import opened Text

  /** The text after its leading blank units. */
  function PastBlanks(s: string): (rest: string)
    ensures |rest| <= |s| && BlankLen(rest, 0) == 0
  {
    if BlankLen(s, 0) == 0 then s else PastBlanks(s[BlankLen(s, 0)..])
  }

  function Collapsed(s: string): string
    decreases |s|
  {
    if s == "" then "" else
    var n := BlankLen(s, 0);
    if n == 0 then [s[0]] + Collapsed(s[1..]) else
    var rest := PastBlanks(s[n..]);
    (if rest == s[n..] then s[..n] else " ") + Collapsed(rest)
  }

  /** No blank unit is followed by another. */
  predicate NoBlankPairs(s: string) {
    if s == "" then true else
    var n := BlankLen(s, 0);
    if n == 0 then NoBlankPairs(s[1..]) else BlankLen(s[n..], 0) == 0 && NoBlankPairs(s[n..])
  }

  /** The text without its blank units. */
  function Visible(s: string): string {
    if s == "" then "" else
    var n := BlankLen(s, 0);
    if n == 0 then [s[0]] + Visible(s[1..]) else Visible(s[n..])
  }

  // ----- The loop of the source ------------------------------------------------------------

  method CollapseBlankRuns(s: string) returns (out: string)
    ensures out == Collapsed(s)
  {
    hide BlankLen, PastBlanks, Collapsed;
    out := "";
    var i := 0;
    while i < |s|
      invariant i <= |s| && Collapsed(s) == out + Collapsed(s[i..])
    {
      var rest := s[i..];
      BlankLenShift(s, i);
      CollapsedStep(rest, out);
      var first := BlankLen(s, i);
      if first > 0 {
        var j := i + first;
        var count := 1;
        assert rest[first..] == s[j..];
        while BlankLen(s, j) > 0
          invariant i + first <= j <= |s| && PastBlanks(s[i + first..]) == PastBlanks(s[j..])
          invariant count >= 1 && (count == 1 <==> j == i + first)
          decreases |s| - j
        {
          BlankLenShift(s, j);
          PastBlanksStep(s[j..]);
          assert s[j..][BlankLen(s, j)..] == s[j + BlankLen(s, j)..];
          j := j + BlankLen(s, j);
          count := count + 1;
        }
        BlankLenShift(s, j);
        PastBlanksStep(s[j..]);
        assert |s[i + first..]| == |s| - i - first && |s[j..]| == |s| - j;
        if count >= 2 {
          out := out + " ";
        } else {
          assert s[i..j] == rest[..first];
          out := out + s[i..j];
        }
        i := j;
      } else {
        assert rest[1..] == s[i + 1..];
        out := out + [s[i]];
        i := i + 1;
      }
    }
    CollapsedOfNothing();
    assert s[i..] == "" && out + "" == out;
  }

  lemma PastBlanksStep(s: string)
    ensures PastBlanks(s) == if BlankLen(s, 0) == 0 then s else PastBlanks(s[BlankLen(s, 0)..])
  {
  }

  /** What stands at the start of a collapsed text. */
  lemma CollapsedHead(s: string)
    requires s != ""
    ensures
      var n := BlankLen(s, 0);
      Collapsed(s) ==
        if n == 0 then [s[0]] + Collapsed(s[1..])
        else (if PastBlanks(s[n..]) == s[n..] then s[..n] else " ") + Collapsed(PastBlanks(s[n..]))
  {
    hide BlankLen, PastBlanks;
  }

  lemma CollapsedStep(s: string, out: string)
    requires s != ""
    ensures
      var n := BlankLen(s, 0);
      out + Collapsed(s) ==
        if n == 0 then (out + [s[0]]) + Collapsed(s[1..])
        else (out + if PastBlanks(s[n..]) == s[n..] then s[..n] else " ") + Collapsed(PastBlanks(s[n..]))
  {
    CollapsedHead(s);
    hide BlankLen, PastBlanks, Collapsed;
    var n := BlankLen(s, 0);
    if n == 0 {
      Regroup(out, [s[0]], Collapsed(s[1..]));
    } else {
      var rest := PastBlanks(s[n..]);
      Regroup(out, if rest == s[n..] then s[..n] else " ", Collapsed(rest));
    }
  }

  lemma CollapsedOfNothing()
    ensures Collapsed("") == ""
  {
  }

  // ----- Units of a collapsed text ----------------------------------------------------------

  /** Text without whitespace and `&` that starts a collapsed text starts the text itself. */
  lemma {:induction false} CopiedPrefix(s: string, p: string)
    requires p <= Collapsed(s) && forall i | 0 <= i < |p| :: !IsWhitespace(p[i]) && p[i] != '&'
    ensures p <= s
    decreases |p|
  {
    if p != "" {
      UnitStart(s);
      assert Collapsed(s)[0] == p[0];
      assert Collapsed(s)[1..] == Collapsed(s[1..]);
      CopiedPrefix(s[1..], p[1..]);
      assert s[1..][..|p| - 1] == p[1..];
    }
  }

  /** Where a blank unit starts, so does the collapsed text: with whitespace or `&`. */
  lemma UnitStart(s: string)
    ensures s != "" && BlankLen(s, 0) > 0 ==>
      Collapsed(s) != "" && (IsWhitespace(Collapsed(s)[0]) || Collapsed(s)[0] == '&')
  {
  }

  lemma EntityStart(s: string, e: nat)
    requires e < 4
    ensures At(s, 0, ENTITIES[e]) <==> s != "" && s[0] == '&' && ENTITIES[e][1..] <= s[1..]
  {
    var t := ENTITIES[e];
    assert t[0] == '&' && |t| == 6;
    if At(s, 0, t) {
      assert s[0..6][0] == s[0] && s[1..][..5] == s[0..6][1..];
    }
    if s != "" && s[0] == '&' && t[1..] <= s[1..] {
      assert s[0..6] == [s[0]] + s[1..][..5];
    }
  }

  /** Collapsing makes no solid character the start of a unit. */
  lemma SolidStaysSolid(s: string)
    requires s != "" && BlankLen(s, 0) == 0
    ensures BlankLen(Collapsed(s), 0) == 0
  {
    var t := Collapsed(s);
    assert t[0] == s[0] && t[1..] == Collapsed(s[1..]);
    hide Collapsed;
    forall e: nat | e < 4 ensures !At(t, 0, ENTITIES[e]) {
      EntityStart(t, e);
      EntityStart(s, e);
      EntityTail(e);
      if ENTITIES[e][1..] <= t[1..] { CopiedPrefix(s[1..], ENTITIES[e][1..]); }
    }
  }

  lemma EntityTail(e: nat)
    requires e < 4
    ensures |ENTITIES[e]| == 6 && forall i | 0 <= i < 5 ::
      !IsWhitespace(ENTITIES[e][1..][i]) && ENTITIES[e][1..][i] != '&'
  {
  }

  lemma CollapsedUnit(rest: string)
    requires BlankLen(rest, 0) == 0
    ensures BlankLen(Collapsed(rest), 0) == 0
  {
    if rest != "" { SolidStaysSolid(rest); }
  }

  /** A unit before another text is still that unit. */
  lemma UnitThen(u: string, t: string)
    requires u != "" && BlankLen(u, 0) == |u|
    ensures BlankLen(u + t, 0) == |u| && (u + t)[..|u|] == u && (u + t)[|u|..] == t
  {
    forall e: nat | e < 4 && At(u, 0, ENTITIES[e]) ensures At(u + t, 0, ENTITIES[e]) {
      assert (u + t)[0..6] == u[0..6];
    }
  }

  lemma UnitAlone(s: string)
    requires BlankLen(s, 0) > 0
    ensures BlankLen(s[..BlankLen(s, 0)], 0) == BlankLen(s, 0)
    ensures BlankLen(" ", 0) == 1
  {
    var n := BlankLen(s, 0);
    forall e: nat | e < 4 && At(s, 0, ENTITIES[e]) ensures At(s[..6], 0, ENTITIES[e]) {
      assert s[..6][0..6] == s[0..6];
    }
  }

  /** What a run of blanks collapses to: one unit, then the collapsed rest. */
  lemma RunBecomesUnit(s: string) returns (u: string, rest: string)
    requires BlankLen(s, 0) > 0
    ensures Collapsed(s) == u + Collapsed(rest) && |rest| < |s|
    ensures u != "" && BlankLen(u, 0) == |u| && BlankLen(rest, 0) == 0
    ensures Visible(s) == Visible(rest)
    ensures |Collapsed(rest)| <= |rest| ==> |Collapsed(s)| <= |s|
    ensures |Collapsed(rest)| <= |rest| && BlankLen(s[BlankLen(s, 0)..], 0) > 0 ==> |Collapsed(s)| < |s|
  {
    var n := BlankLen(s, 0);
    rest := PastBlanks(s[n..]);
    u := if rest == s[n..] then s[..n] else " ";
    UnitAlone(s);
    PastBlanksKeepsVisible(s[n..]);
    PastBlanksStep(s[n..]);
    hide BlankLen;
  }

  lemma {:induction false} PastBlanksKeepsVisible(s: string)
    ensures Visible(PastBlanks(s)) == Visible(s)
    ensures BlankLen(s, 0) > 0 ==> |PastBlanks(s)| < |s|
    decreases |s|
  {
    hide BlankLen;
    if BlankLen(s, 0) > 0 { PastBlanksKeepsVisible(s[BlankLen(s, 0)..]); }
  }

  // ----- Main results -------------------------------------------------------------------------

  /** In a collapsed text no blank unit follows another, and collapsing keeps the visible text in order. */
  lemma {:induction false} CollapsedIsTidy(s: string)
    ensures NoBlankPairs(Collapsed(s)) && Visible(Collapsed(s)) == Visible(s) && |Collapsed(s)| <= |s|
    decreases |s|
  {
    if s == "" {
    } else if BlankLen(s, 0) == 0 {
      SolidStaysSolid(s);
      CollapsedIsTidy(s[1..]);
      hide BlankLen;
      assert Collapsed(s)[1..] == Collapsed(s[1..]);
    } else {
      hide BlankLen, Collapsed;
      var u, rest := RunBecomesUnit(s);
      CollapsedIsTidy(rest);
      CollapsedUnit(rest);
      UnitThen(u, Collapsed(rest));
    }
  }

  /** A text is left as it is if and only if no blank unit follows another. */
  lemma {:induction false} UnchangedIffTidy(s: string)
    ensures Collapsed(s) == s <==> NoBlankPairs(s)
    decreases |s|
  {
    CollapsedIsTidy(s);
    if NoBlankPairs(s) {
      TidyIsUnchanged(s);
    }
  }

  lemma {:induction false} TidyIsUnchanged(s: string)
    requires NoBlankPairs(s)
    ensures Collapsed(s) == s
    decreases |s|
  {
    if s != "" {
      var n := BlankLen(s, 0);
      hide BlankLen;
      if n == 0 {
        TidyIsUnchanged(s[1..]);
        assert s == [s[0]] + s[1..];
      } else {
        PastBlanksStep(s[n..]);
        TidyIsUnchanged(s[n..]);
        assert s == s[..n] + s[n..];
      }
    }
  }

  lemma CollapsingTwiceIsOnce(s: string)
    ensures Collapsed(Collapsed(s)) == Collapsed(s)
  {
    CollapsedIsTidy(s);
    UnchangedIffTidy(Collapsed(s));
  }

  // ----- What becomes of a run ------------------------------------------------------------------

  /** A run of blanks: whitespace characters and no-break entities, one after another. */
  ghost predicate IsRun(units: seq<string>) {
    forall i | 0 <= i < |units| :: units[i] in ENTITIES || (|units[i]| == 1 && IsWhitespace(units[i][0]))
  }

  function Joined(units: seq<string>): string {
    if units == [] then "" else units[0] + Joined(units[1..])
  }

  /** A run between texts is left out by the scan for blanks, whatever its units. */
  lemma {:induction false} PastRun(units: seq<string>, b: string)
    requires IsRun(units) && BlankLen(b, 0) == 0
    ensures PastBlanks(Joined(units) + b) == b
    decreases |units|
  {
    if units == [] {
      assert Joined(units) + b == b;
    } else {
      var t := Joined(units[1..]) + b;
      assert Joined(units) + b == units[0] + t;
      UnitBefore(units[0], t);
      PastRun(units[1..], b);
    }
  }

  lemma UnitBefore(u: string, t: string)
    requires u in ENTITIES || (|u| == 1 && IsWhitespace(u[0]))
    ensures u != "" && BlankLen(u + t, 0) == |u| && (u + t)[|u|..] == t && (u + t)[..|u|] == u
  {
    if u in ENTITIES {
      var e :| 0 <= e < |ENTITIES| && ENTITIES[e] == u;
      assert u[0] == '&' && |u| == 6;
      assert (u + t)[0..6] == u && (u + t)[0] == '&' && At(u + t, 0, ENTITIES[e]);
    }
  }

  lemma PlainIsNoBlank(s: string)
    requires s != "" && !IsWhitespace(s[0]) && s[0] != '&'
    ensures BlankLen(s, 0) == 0
  {
    EntityStart(s, 0);
    EntityStart(s, 1);
    EntityStart(s, 2);
    EntityStart(s, 3);
  }

  /** Text without whitespace and `&` stands for itself before any text. */
  lemma {:induction false} PlainBefore(a: string, t: string)
    requires forall i | 0 <= i < |a| :: !IsWhitespace(a[i]) && a[i] != '&'
    ensures Collapsed(a + t) == a + Collapsed(t)
    decreases |a|
  {
    hide BlankLen, IsWhitespace, Collapsed;
    var s := a + t;
    if a == "" {
      assert s == t && "" + Collapsed(t) == Collapsed(t);
    } else {
      assert s[0] == a[0] && s[1..] == a[1..] + t;
      PlainIsNoBlank(s);
      CollapsedHead(s);
      PlainBefore(a[1..], t);
      Regroup([a[0]], a[1..], Collapsed(t));
      assert a == [a[0]] + a[1..];
    }
  }

  /** What the run is cut down to stands before the collapsed rest. */
  lemma RunCollapses(units: seq<string>, b: string)
    requires IsRun(units) && units != [] && BlankLen(b, 0) == 0
    ensures Collapsed(Joined(units) + b) == (if |units| == 1 then units[0] else " ") + Collapsed(b)
  {
    hide BlankLen, PastBlanks, Collapsed, IsWhitespace;
    var t := Joined(units[1..]) + b;
    assert Joined(units) + b == units[0] + t;
    UnitBefore(units[0], t);
    PastRun(units[1..], b);
    hide IsRun;
    CollapsedHead(units[0] + t);
    RunIsLonger(units, b);
  }

  lemma RunIsLonger(units: seq<string>, b: string)
    requires IsRun(units) && units != []
    ensures Joined(units[1..]) + b == b <==> |units| == 1
  {
    if |units| == 1 {
      assert Joined([]) + b == b;
    } else {
      assert units[1] != "";
      assert |Joined(units[1..])| > 0;
    }
  }

  /** Behind plain text a run of two or more blank units becomes one space; a single unit stays as it is. */
  lemma RunBecomesSpace(a: string, units: seq<string>, b: string)
    requires forall i | 0 <= i < |a| :: !IsWhitespace(a[i]) && a[i] != '&'
    requires IsRun(units) && units != [] && BlankLen(b, 0) == 0
    ensures Collapsed(a + (Joined(units) + b)) == a + ((if |units| == 1 then units[0] else " ") + Collapsed(b))
  {
    hide BlankLen, PastBlanks, Collapsed, IsWhitespace, IsRun;
    PlainBefore(a, Joined(units) + b);
    RunCollapses(units, b);
  }
}
