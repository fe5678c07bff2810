/**
 * What `normalize_plain` (src/services/content.rs) makes of a text written as
 * lines with blanks behind them and blank lines between them.
 */
module PlainParagraphs {
  import opened Text
  import opened PlainLines
  import opened NormalizePlain

  /** A line that shows, the blanks behind it and the blank lines after it. */
  datatype Paragraph = Paragraph(line: string, tail: string, gap: seq<string>)

  /** Whitespace and invisible padding, on one line. */
  ghost predicate IsFiller(t: string) {
    '\n' !in t && forall i | 0 <= i < |t| :: IsWhitespace(t[i]) || IsInvisible(t[i])
  }

  /** The line has no padding and its last character shows. */
  ghost predicate IsParagraph(p: Paragraph) {
    && IsLine(p.line) && p.line != "" && !IsWhitespace(p.line[|p.line| - 1])
    && IsFiller(p.tail) && forall i | 0 <= i < |p.gap| :: IsFiller(p.gap[i])
  }

  ghost predicate AreParagraphs(ps: seq<Paragraph>) {
    forall i | 0 <= i < |ps| :: IsParagraph(ps[i])
  }

  function Written(ps: seq<Paragraph>): string {
    if ps == [] then "" else ps[0].line + ps[0].tail + "\n" + (Ended(ps[0].gap) + Written(ps[1..]))
  }

  /** The lines, with one blank line where there were any. */
  function Tight(ps: seq<Paragraph>): seq<string> {
    if ps == [] then [] else
    if |ps| == 1 then [ps[0].line] else [ps[0].line] + Gap(ps[0]) + Tight(ps[1..])
  }

  function Gap(p: Paragraph): seq<string> {
    if p.gap == [] then [] else [""]
  }

  // ----- One line --------------------------------------------------------------------------------

  lemma {:induction false} FilteredConcat(a: string, b: string)
    ensures Filtered(a + b) == Filtered(a) + Filtered(b)
    decreases |a|
  {
    hide IsInvisible;
    if a == "" {
      assert a + b == b && "" + Filtered(b) == Filtered(b);
    } else {
      assert (a + b)[1..] == a[1..] + b && (a + b)[0] == a[0];
      FilteredConcat(a[1..], b);
      FilteredStep(a);
      FilteredStep(a + b);
      hide Filtered;
      Regroup(if IsInvisible(a[0]) then "" else [a[0]], Filtered(a[1..]), Filtered(b));
    }
  }

  lemma FilteredStep(s: string)
    requires s != ""
    ensures Filtered(s) == (if IsInvisible(s[0]) then "" else [s[0]]) + Filtered(s[1..])
  {
    hide IsInvisible;
  }

  lemma {:induction false} FilteredFiller(t: string)
    requires IsFiller(t)
    ensures '\n' !in Filtered(t) && forall i | 0 <= i < |Filtered(t)| :: IsWhitespace(Filtered(t)[i])
    decreases |t|
  {
    hide IsWhitespace, IsInvisible;
    if t != "" {
      assert forall i | 0 <= i < |t[1..]| :: t[1..][i] == t[i + 1];
      FilteredFiller(t[1..]);
    }
  }

  lemma FilteredLine(a: string, b: string)
    ensures Filtered(a + "\n" + b) == Filtered(a) + "\n" + Filtered(b)
  {
    FilteredConcat(a + "\n", b);
    FilteredConcat(a, "\n");
    assert "\n"[1..] == "" && Filtered("\n") == "\n" + Filtered("") == "\n";
  }

  /** A line before blanks, read and right-trimmed, is the line. */
  lemma LineIsRead(line: string, w: string, rest: string, run: nat)
    requires '\n' !in line && (line != "" ==> !IsWhitespace(line[|line| - 1]))
    requires '\n' !in w && forall i | 0 <= i < |w| :: IsWhitespace(w[i])
    ensures Kept(Lines(line + w + "\n" + rest), run) ==
      if line == "" then (if run == 0 then [""] else []) + Kept(Lines(rest), run + 1)
      else [line] + Kept(Lines(rest), 0)
  {
    var t := line + w;
    FindAbsent(t, '\n', 0);
    assert t[0..] == t && t[..|t|] == t;
    LinesFirst(t, rest);
    ChoppedIsTrimmed(line, w);
    hide TrimEnd, Lines, ChopCr, Find, IsWhitespace;
    var lines := Lines(t + "\n" + rest);
    assert lines[0] == ChopCr(t) && lines[1..] == Lines(rest);
  }

  lemma ChoppedIsTrimmed(line: string, w: string)
    requires line != "" ==> !IsWhitespace(line[|line| - 1])
    requires forall i | 0 <= i < |w| :: IsWhitespace(w[i])
    ensures TrimEnd(ChopCr(line + w)) == line
  {
    var t := line + w;
    if w == "" {
      assert t == line && line + "" == line;
      TrimEndBlank(line, "");
      assert line != "" ==> ChopCr(line) == line;
    } else {
      var shorter := w[..|w| - 1];
      assert t[..|t| - 1] == line + shorter && t[|t| - 1] == w[|w| - 1];
      TrimEndBlank(line, w);
      TrimEndBlank(line, shorter);
    }
  }

  // ----- Several lines ------------------------------------------------------------------------------

  /** However many blank lines there are, one stays, and none behind another. */
  lemma {:induction false} GapIsRead(gap: seq<string>, rest: string, run: nat, kept: seq<string>)
    requires forall i | 0 <= i < |gap| :: IsFiller(gap[i])
    requires forall n: nat :: Kept(Lines(Filtered(rest)), n) == kept
    ensures Kept(Lines(Filtered(Ended(gap) + rest)), run) == (if gap != [] && run == 0 then [""] else []) + kept
    decreases |gap|
  {
    hide Kept, Lines, Filtered, IsFiller;
    if gap == [] {
      assert Ended(gap) + rest == rest && [] + kept == kept;
    } else {
      var g, more := gap[0], Ended(gap[1..]) + rest;
      assert Ended(gap) + rest == g + "\n" + more;
      FilteredLine(g, more);
      FilteredFiller(g);
      var w := Filtered(g);
      assert "" + w == w;
      LineIsRead("", w, Filtered(more), run);
      GapIsRead(gap[1..], rest, run + 1, kept);
      assert [] + kept == kept;
    }
  }

  function LinesKept(ps: seq<Paragraph>): seq<string> {
    if ps == [] then [] else [ps[0].line] + (Gap(ps[0]) + LinesKept(ps[1..]))
  }

  lemma {:induction false} ParagraphsAreRead(ps: seq<Paragraph>, run: nat)
    requires AreParagraphs(ps)
    ensures Kept(Lines(Filtered(Written(ps))), run) == LinesKept(ps)
    decreases |ps|
  {
    if ps == [] {
      NoLines();
    } else {
      var p, rest := ps[0], Written(ps[1..]);
      var more := Ended(p.gap) + rest;
      assert IsParagraph(p);
      hide Kept, Lines, Filtered, IsFiller, IsWhitespace;
      forall n: nat ensures Kept(Lines(Filtered(rest)), n) == LinesKept(ps[1..]) {
        ParagraphsAreRead(ps[1..], n);
      }
      GapIsRead(p.gap, rest, 0, LinesKept(ps[1..]));
      FilteredLine(p.line + p.tail, more);
      FilteredConcat(p.line, p.tail);
      FilteredIsClean(p.line);
      FilteredFiller(p.tail);
      LineIsRead(p.line, Filtered(p.tail), Filtered(more), run);
    }
  }

  /** The last gap aside, these are the lines of the result. */
  lemma {:induction false} KeptIsTight(ps: seq<Paragraph>)
    requires ps != []
    ensures LinesKept(ps) == Tight(ps) + Gap(ps[|ps| - 1])
    ensures Tight(ps) != [] && Tight(ps)[0] == ps[0].line && Tight(ps)[|Tight(ps)| - 1] == ps[|ps| - 1].line
    decreases |ps|
  {
    hide Gap;
    if |ps| == 1 {
      assert Gap(ps[0]) + [] == Gap(ps[0]);
    } else {
      var rest := ps[1..];
      KeptIsTight(rest);
      assert rest[|rest| - 1] == ps[|ps| - 1];
      Regroup(Gap(ps[0]), Tight(rest), Gap(ps[|ps| - 1]));
      Regroup([ps[0].line], Gap(ps[0]) + Tight(rest), Gap(ps[|ps| - 1]));
      Regroup([ps[0].line], Gap(ps[0]), Tight(rest));
    }
  }

  // ----- Main result ----------------------------------------------------------------------------------

  /** Blanks behind lines go, any number of blank lines becomes one, and none stays at the end. */
  lemma BlankLinesBecomeOne(ps: seq<Paragraph>)
    requires AreParagraphs(ps) && ps != [] && !IsWhitespace(ps[0].line[0])
    ensures Normalized(Written(ps)) == Join(Tight(ps))
  {
    var kept, tight := LinesKept(ps), Tight(ps);
    assert IsParagraph(ps[|ps| - 1]) && IsParagraph(ps[0]);
    hide *;
    ParagraphsAreRead(ps, 0);
    KeptIsTight(ps);
    KeptIsTrimmed(ps, kept, tight);
    NormalizedIsTrimmed(Written(ps), kept);
  }

  lemma NormalizedIsTrimmed(s: string, kept: seq<string>)
    requires Kept(Lines(Filtered(s)), 0) == kept
    ensures Normalized(s) == Trim(Ended(kept))
  {
    hide Kept, Lines, Filtered, Trim, Ended;
  }

  /** Trimming takes the last line endings and nothing else. */
  lemma KeptIsTrimmed(ps: seq<Paragraph>, kept: seq<string>, tight: seq<string>)
    requires ps != [] && IsParagraph(ps[0]) && IsParagraph(ps[|ps| - 1]) && !IsWhitespace(ps[0].line[0])
    requires kept == tight + Gap(ps[|ps| - 1]) && tight != []
    requires tight[0] == ps[0].line && tight[|tight| - 1] == ps[|ps| - 1].line
    ensures Trim(Ended(kept)) == Join(tight)
  {
    TrimEndOfEnded(kept);
    TrimJoinBlank(tight);
    assert tight + [] == tight;
    JoinLast(tight);
    NotBlankIsTrimmed(Join(tight));
    JoinStarts(tight);
    hide TrimEnd, Ended, IsWhitespace, Join;
  }

  lemma JoinStarts(lines: seq<string>)
    requires lines != [] && lines[0] != ""
    ensures Join(lines) != "" && Join(lines)[0] == lines[0][0]
  {
  }
}
