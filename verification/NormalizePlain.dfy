/**
 * `normalize_plain` and `strip_invisibles` (src/services/content.rs): drops
 * invisible padding and trailing blanks of lines, and keeps one of several blank
 * lines in a row.
 */
module NormalizePlain {
  import opened Text
  import opened PlainLines

  /** The padding characters the source lists. */
  predicate IsInvisible(c: char) {
    || c == '\U{AD}' || c == '\U{34F}' || c == '\U{200B}' || c == '\U{200C}' || c == '\U{200D}'
    || c == '\U{2060}' || c == '\U{FEFF}' || c == '\U{180E}'
  }

  /** `strip_invisibles` */
  function Filtered(s: string): string {
    if s == "" then "" else (if IsInvisible(s[0]) then "" else [s[0]]) + Filtered(s[1..])
  }

  /** The lines that stay, right-trimmed, after `run` blank ones in a row. */
  function Kept(lines: seq<string>, run: nat): seq<string>
    decreases |lines|
  {
    if lines == [] then [] else
    var line := TrimEnd(lines[0]);
    if line == "" then (if run == 0 then [""] else []) + Kept(lines[1..], run + 1)
    else [line] + Kept(lines[1..], 0)
  }

  /** Each line with its line ending. */
  function Ended(lines: seq<string>): string {
    if lines == [] then "" else lines[0] + "\n" + Ended(lines[1..])
  }

  function Normalized(s: string): string {
    Trim(Ended(Kept(Lines(Filtered(s)), 0)))
  }

  // ----- The loop of the source --------------------------------------------------------------

  method NormalizePlain(s: string) returns (out: string)
    ensures out == Normalized(s)
  {
    hide TrimEnd, TrimStart, Lines, Filtered, Kept, Ended;
    var lines := Lines(Filtered(s));
    ghost var whole := Ended(Kept(lines, 0));
    out := "";
    var blankRun, i := 0, 0;
    while i < |lines|
      invariant 0 <= i <= |lines| && whole == out + Ended(Kept(lines[i..], blankRun))
    {
      var line := TrimEnd(lines[i]);
      KeptStep(lines[i..], blankRun, out);
      assert lines[i..][1..] == lines[i + 1..];
      if line == "" {
        blankRun := blankRun + 1;
        if blankRun <= 1 {
          out := out + "\n";
        }
      } else {
        blankRun := 0;
        out := out + line;
        out := out + "\n";
      }
      i := i + 1;
    }
    EndedOfNothing(blankRun);
    assert lines[i..] == [] && out + "" == out;
    out := Trim(out);
  }

  lemma KeptStep(lines: seq<string>, run: nat, out: string)
    requires lines != []
    ensures
      var line := TrimEnd(lines[0]);
      out + Ended(Kept(lines, run)) ==
        if line == "" then (if run == 0 then out + "\n" else out) + Ended(Kept(lines[1..], run + 1))
        else out + line + "\n" + Ended(Kept(lines[1..], 0))
  {
    hide TrimEnd;
    var line := TrimEnd(lines[0]);
    var rest := Kept(lines[1..], if line == "" then run + 1 else 0);
    assert [line] + rest == Kept(lines, run) || (line == "" && run > 0 && rest == Kept(lines, run)) by {
      assert [] + rest == rest;
    }
    assert ([line] + rest)[1..] == rest;
    hide Kept;
    assert out + (line + "\n" + Ended(rest)) == out + line + "\n" + Ended(rest);
    assert out + "" == out;
  }

  lemma EndedOfNothing(run: nat)
    ensures Ended(Kept([], run)) == ""
  {
  }

  // ----- Normal lines ---------------------------------------------------------------------------

  predicate IsClean(s: string) {
    forall i | 0 <= i < |s| :: !IsInvisible(s[i])
  }

  predicate IsLine(line: string) {
    '\n' !in line && IsClean(line)
  }

  /** Right-trimmed clean lines, no two blank ones in a row. */
  predicate Squeezed(lines: seq<string>, afterBlank: bool)
    decreases |lines|
  {
    lines == [] ||
    (IsLine(lines[0]) && TrimEnd(lines[0]) == lines[0] && !(afterBlank && lines[0] == "")
     && Squeezed(lines[1..], lines[0] == ""))
  }

  /** Squeezed lines that neither start nor end with a blank. */
  predicate Normal(lines: seq<string>) {
    Squeezed(lines, true) && (lines != [] ==> !IsWhitespace(lines[0][0]) && lines[|lines| - 1] != "")
  }

  lemma {:induction false} FilteredIsClean(s: string)
    ensures IsClean(Filtered(s)) && (IsClean(s) ==> Filtered(s) == s)
  {
    if s != "" {
      FilteredIsClean(s[1..]);
      assert IsClean(s) ==> IsClean(s[1..]);
      assert s == [s[0]] + s[1..];
    }
  }

  ghost predicate AllLines(lines: seq<string>) {
    forall i | 0 <= i < |lines| :: IsLine(lines[i])
  }

  lemma {:induction false} LinesAreLines(s: string)
    requires IsClean(s)
    ensures AllLines(Lines(s))
    decreases |s|
  {
    if s != "" {
      var k := Find(s, '\n', 0);
      FindStops(s, '\n', 0);
      if k < |s| {
        LinesAreLines(s[k + 1..]);
        LinesStep(s, k);
        assert IsLine(s[..k]);
        assert IsLine(ChopCr(s[..k]));
      }
    }
  }

  lemma {:induction false} FindStops(s: string, c: char, k: nat)
    requires k <= |s|
    ensures forall i | k <= i < Find(s, c, k) :: s[i] != c
    decreases |s| - k
  {
    if k < |s| && s[k] != c { FindStops(s, c, k + 1); }
  }

  lemma {:induction false} TrimEndIsStable(s: string)
    ensures TrimEnd(TrimEnd(s)) == TrimEnd(s) && TrimEnd(s) <= s
    ensures TrimEnd(s) != "" ==> !IsWhitespace(TrimEnd(s)[|TrimEnd(s)| - 1])
    decreases |s|
  {
    if s != "" && IsWhitespace(s[|s| - 1]) { TrimEndIsStable(s[..|s| - 1]); }
  }

  lemma {:induction false} KeptIsSqueezed(lines: seq<string>, run: nat)
    requires AllLines(lines)
    ensures Squeezed(Kept(lines, run), run > 0)
    decreases |lines|
  {
    if lines != [] {
      var line := TrimEnd(lines[0]);
      assert IsLine(lines[0]);
      TrimEndIsStable(lines[0]);
      assert IsLine(line);
      hide TrimEnd, IsLine;
      var rest := Kept(lines[1..], if line == "" then run + 1 else 0);
      KeptIsSqueezed(lines[1..], if line == "" then run + 1 else 0);
      assert ([line] + rest)[1..] == rest && [] + rest == rest;
    }
  }

  lemma {:induction false} SqueezedIsKept(lines: seq<string>, run: nat)
    requires Squeezed(lines, run > 0)
    ensures Kept(lines, run) == lines
    decreases |lines|
  {
    hide TrimEnd, IsLine;
    if lines != [] {
      SqueezedIsKept(lines[1..], if lines[0] == "" then 1 else 0);
      assert lines == [lines[0]] + lines[1..];
    }
  }

  // ----- From squeezed lines to normal ones -----------------------------------------------------

  lemma {:induction false} EndedIsJoined(lines: seq<string>)
    requires lines != []
    ensures Ended(lines) == Join(lines) + "\n"
  {
    if |lines| > 1 {
      EndedIsJoined(lines[1..]);
      assert lines[0] + "\n" + (Join(lines[1..]) + "\n") == lines[0] + "\n" + Join(lines[1..]) + "\n";
    } else {
      assert lines[0] + "\n" + "" == lines[0] + "\n";
    }
  }

  lemma {:induction false} SqueezedPrefix(a: seq<string>, b: seq<string>, afterBlank: bool)
    requires Squeezed(a + b, afterBlank)
    ensures Squeezed(a, afterBlank)
    decreases |a|
  {
    hide TrimEnd, IsLine;
    if a != [] {
      assert (a + b)[1..] == a[1..] + b;
      SqueezedPrefix(a[1..], b, a[0] == "");
    }
  }

  lemma {:induction false} SqueezedLast(lines: seq<string>, afterBlank: bool)
    requires lines != [] && Squeezed(lines, afterBlank)
    ensures var last := lines[|lines| - 1]; IsLine(last) && TrimEnd(last) == last
    decreases |lines|
  {
    hide TrimEnd, IsLine;
    if |lines| > 1 { SqueezedLast(lines[1..], lines[0] == ""); }
  }

  lemma {:induction false} JoinLast(lines: seq<string>)
    requires lines != [] && lines[|lines| - 1] != ""
    ensures Join(lines) != ""
    ensures var last := lines[|lines| - 1]; Join(lines)[|Join(lines)| - 1] == last[|last| - 1]
  {
    if |lines| > 1 { JoinLast(lines[1..]); }
  }

  /** The lines without blank ones at the end. */
  function DropEnd(lines: seq<string>): seq<string> {
    if lines != [] && lines[|lines| - 1] == "" then DropEnd(lines[..|lines| - 1]) else lines
  }

  lemma {:induction false} TrimEndOfLines(lines: seq<string>, afterBlank: bool)
    requires Squeezed(lines, afterBlank)
    ensures
      var m := DropEnd(lines);
      && TrimEnd(Join(lines)) == Join(m) && Squeezed(m, afterBlank)
      && (m != [] ==> m[|m| - 1] != "")
    decreases |lines|
  {
    hide IsLine;
    if lines == [] {
    } else {
      var init, last := lines[..|lines| - 1], lines[|lines| - 1];
      assert lines == init + [last];
      if last == "" {
        SqueezedPrefix(init, [last], afterBlank);
        TrimJoinBlank(init);
        TrimEndOfLines(init, afterBlank);
      } else {
        SqueezedLast(lines, afterBlank);
        TrimEndIsStable(last);
        JoinLast(lines);
      }
    }
  }

  lemma {:induction false} TrimStartWithin(a: string, b: string)
    requires a != "" && !IsWhitespace(a[|a| - 1])
    ensures TrimStart(a + b) == TrimStart(a) + b && TrimStart(a) != "" && !IsWhitespace(TrimStart(a)[0])
    ensures TrimStart(a)[|TrimStart(a)| - 1] == a[|a| - 1]
    ensures IsLine(a) ==> IsLine(TrimStart(a))
    decreases |a|
  {
    if IsWhitespace(a[0]) {
      assert (a + b)[1..] == a[1..] + b;
      assert IsLine(a) ==> IsLine(a[1..]);
      TrimStartWithin(a[1..], b);
    }
  }

  lemma NotBlankIsTrimmed(s: string)
    requires s != "" && !IsWhitespace(s[|s| - 1])
    ensures TrimEnd(s) == s
  {
  }

  /** What a joined text has behind its first line. */
  function Behind(rest: seq<string>): string {
    if rest == [] then "" else "\n" + Join(rest)
  }

  lemma JoinFirst(first: string, rest: seq<string>)
    ensures Join([first] + rest) == first + Behind(rest)
  {
    assert ([first] + rest)[1..] == rest && first + "" == first;
    if rest != [] { assert first + ("\n" + Join(rest)) == first + "\n" + Join(rest); }
  }

  lemma TrimStartPastBlank(rest: seq<string>)
    requires rest != []
    ensures TrimStart(Join([""] + rest)) == TrimStart(Join(rest))
  {
    JoinFirst("", rest);
    hide Join;
    assert "" + Behind(rest) == "\n" + Join(rest) && ("\n" + Join(rest))[1..] == Join(rest);
  }

  /** The first line left-trimmed, blank ones before it gone. */
  lemma {:induction false} TrimStartOfLines(lines: seq<string>, afterBlank: bool) returns (m: seq<string>)
    requires Squeezed(lines, afterBlank) && (lines != [] ==> lines[|lines| - 1] != "")
    ensures TrimStart(Join(lines)) == Join(m) && Normal(m)
    decreases |lines|
  {
    hide Join, IsLine, TrimEnd;
    if lines == [] {
      m := [];
      JoinOfNothing();
    } else {
      hide TrimStart;
      var first, rest := lines[0], lines[1..];
      assert lines == [first] + rest;
      if first == "" {
        TrimStartPastBlank(rest);
        m := TrimStartOfLines(rest, true);
      } else {
        TrimEndIsStable(first);
        TrimStartWithin(first, Behind(rest));
        NotBlankIsTrimmed(TrimStart(first));
        JoinFirst(first, rest);
        JoinFirst(TrimStart(first), rest);
        m := [TrimStart(first)] + rest;
        assert m[1..] == rest;
      }
    }
  }

  lemma JoinOfNothing()
    ensures Join([]) == ""
  {
  }

  /** Right-trimming does not depend on whether the front was trimmed before. */
  lemma TrimEndOfEnded(lines: seq<string>)
    ensures TrimEnd(Ended(lines)) == TrimEnd(Join(lines))
  {
    if lines != [] {
      EndedIsJoined(lines);
      TrimEndBlank(Join(lines), "\n");
    }
  }

  // ----- Main results ------------------------------------------------------------------------------

  /** The result is some normal lines joined. */
  lemma NormalizedIsNormal(s: string) returns (lines: seq<string>)
    ensures Normalized(s) == Join(lines) && Normal(lines)
  {
    hide TrimEnd, TrimStart, Join, Lines, Kept, Ended, Squeezed, Normal, Filtered, AllLines;
    var clean := Filtered(s);
    FilteredIsClean(s);
    LinesAreLines(clean);
    var kept := Kept(Lines(clean), 0);
    KeptIsSqueezed(Lines(clean), 0);
    TrimEndOfEnded(kept);
    TrimEndOfLines(kept, false);
    lines := TrimStartOfLines(DropEnd(kept), false);
  }

  /** A trimmed line is the one line of itself and keeps its end in front of others. */
  lemma LineStands(line: string, rest: string)
    requires IsLine(line) && TrimEnd(line) == line
    ensures line != "" ==> Lines(line) == [line]
    ensures Lines(line + "\n" + rest) == [line] + Lines(rest)
  {
    TrimEndIsStable(line);
    FindAbsent(line, '\n', 0);
    assert line[0..] == line && line[..|line|] == line && ChopCr(line) == line;
    hide TrimEnd, Find, ChopCr;
    LinesFirst(line, rest);
  }

  lemma CleanLineThenRest(line: string, rest: string)
    requires IsClean(line) && IsClean(rest)
    ensures IsClean(line + "\n" + rest)
  {
  }

  lemma {:induction false} LinesOfJoined(lines: seq<string>, afterBlank: bool)
    requires Squeezed(lines, afterBlank) && (lines != [] ==> lines[|lines| - 1] != "")
    ensures Lines(Join(lines)) == lines && IsClean(Join(lines))
    decreases |lines|
  {
    assert IsClean("");
    hide TrimEnd, IsClean;
    if lines == [] {
    } else if |lines| == 1 {
      LineStands(lines[0], "");
    } else {
      var rest := Join(lines[1..]);
      LinesOfJoined(lines[1..], lines[0] == "");
      hide Lines;
      LineStands(lines[0], rest);
      CleanLineThenRest(lines[0], rest);
      assert lines == [lines[0]] + lines[1..];
    }
  }

  /** Normal lines, joined, are left as they are. */
  lemma NormalIsUnchanged(lines: seq<string>)
    requires Normal(lines)
    ensures Normalized(Join(lines)) == Join(lines)
  {
    var s := Join(lines);
    LinesOfJoined(lines, true);
    FilteredIsClean(s);
    SqueezedIsKept(lines, 0) by { SqueezedAnyway(lines); }
    if lines == [] {
    } else {
      EndedIsJoined(lines);
      TrimEndBlank(s, "\n");
      SqueezedLast(lines, true);
      TrimEndIsStable(lines[|lines| - 1]);
      JoinLast(lines);
      assert s[0] == lines[0][0];
    }
  }

  lemma SqueezedAnyway(lines: seq<string>)
    requires Squeezed(lines, true)
    ensures Squeezed(lines, false)
  {
    hide TrimEnd, IsLine;
  }

  /** Normalizing twice is normalizing once, and no two lines of the result in a row are blank. */
  lemma NormalizingTwiceIsOnce(s: string)
    ensures Normalized(Normalized(s)) == Normalized(s)
    ensures Normal(Lines(Normalized(s)))
  {
    hide Normalized, TrimEnd, Lines, Join;
    var lines := NormalizedIsNormal(s);
    NormalIsUnchanged(lines);
    LinesOfJoined(lines, true);
  }

  // ----- Ink -------------------------------------------------------------------------------------------

  /** The characters that show, in order. */
  function Ink(s: string): string {
    if s == "" then "" else (if IsWhitespace(s[0]) || IsInvisible(s[0]) then "" else [s[0]]) + Ink(s[1..])
  }

  lemma {:induction false} InkConcat(a: string, b: string)
    ensures Ink(a + b) == Ink(a) + Ink(b)
  {
    hide IsWhitespace, IsInvisible;
    if a == "" {
      assert a + b == b;
    } else {
      assert (a + b)[1..] == a[1..] + b;
      InkConcat(a[1..], b);
    }
  }

  function InkOf(lines: seq<string>): string {
    if lines == [] then "" else Ink(lines[0]) + InkOf(lines[1..])
  }

  lemma {:induction false} TrimKeepsInk(s: string)
    ensures Ink(TrimEnd(s)) == Ink(s) && Ink(TrimStart(s)) == Ink(s)
    decreases |s|
  {
    if s != "" {
      var init, last := s[..|s| - 1], s[|s| - 1];
      TrimKeepsInk(s[1..]);
      TrimKeepsInk(init);
      InkConcat(init, [last]);
      assert s == init + [last] && [last][1..] == "";
    }
  }

  lemma {:induction false} LinesKeepInk(s: string)
    ensures InkOf(Lines(s)) == Ink(s)
    decreases |s|
  {
    if s == "" {
    } else {
      var k := Find(s, '\n', 0);
      if k < |s| {
        LinesStep(s, k);
        LinesKeepInk(s[k + 1..]);
        FindIsThere(s, '\n', 0);
        ChopKeepsInk(s[..k]);
        hide Ink, Lines, Find, ChopCr;
        InkAcrossEnding(s, k);
        assert ([ChopCr(s[..k])] + Lines(s[k + 1..]))[1..] == Lines(s[k + 1..]);
      } else {
        assert [s][1..] == [] && Ink(s) + "" == Ink(s);
      }
    }
  }

  lemma InkAcrossEnding(s: string, k: nat)
    requires k < |s| && s[k] == '\n'
    ensures Ink(s) == Ink(s[..k]) + Ink(s[k + 1..])
  {
    var rest := s[k + 1..];
    InkConcat(s[..k], "\n" + rest);
    assert s == s[..k] + ("\n" + rest) && ("\n" + rest)[1..] == rest && "" + Ink(rest) == Ink(rest);
  }

  lemma {:induction false} FindIsThere(s: string, c: char, k: nat)
    requires k <= |s| && Find(s, c, k) < |s|
    ensures s[Find(s, c, k)] == c
    decreases |s| - k
  {
    if s[k] != c { FindIsThere(s, c, k + 1); }
  }

  lemma ChopKeepsInk(line: string)
    ensures Ink(ChopCr(line)) == Ink(line)
  {
    if ChopCr(line) != line {
      InkConcat(ChopCr(line), "\r");
      assert line == ChopCr(line) + "\r" && "\r"[1..] == "" && Ink("\r") == "";
    }
  }

  lemma {:induction false} KeptKeepsInk(lines: seq<string>, run: nat)
    ensures InkOf(Kept(lines, run)) == InkOf(lines)
    decreases |lines|
  {
    if lines != [] {
      var line := TrimEnd(lines[0]);
      TrimKeepsInk(lines[0]);
      assert line == "" ==> Ink(lines[0]) == "";
      hide TrimEnd, Ink;
      var rest := Kept(lines[1..], if line == "" then run + 1 else 0);
      KeptKeepsInk(lines[1..], if line == "" then run + 1 else 0);
      assert ([line] + rest)[1..] == rest && [] + rest == rest && "" + InkOf(rest) == InkOf(rest);
    }
  }

  lemma {:induction false} EndedKeepsInk(lines: seq<string>)
    ensures Ink(Ended(lines)) == InkOf(lines)
  {
    if lines != [] {
      EndedKeepsInk(lines[1..]);
      InkConcat(lines[0] + "\n", Ended(lines[1..]));
      InkConcat(lines[0], "\n");
      assert "\n"[1..] == "" && Ink("\n") == "" && Ink(lines[0]) + "" == Ink(lines[0]);
    }
  }

  lemma {:induction false} FilteredKeepsInk(s: string)
    ensures Ink(Filtered(s)) == Ink(s)
  {
    if s != "" {
      FilteredKeepsInk(s[1..]);
      if !IsInvisible(s[0]) {
        assert Filtered(s)[1..] == Filtered(s[1..]);
      } else {
        assert "" + Filtered(s[1..]) == Filtered(s[1..]) && "" + Ink(s[1..]) == Ink(s[1..]);
      }
    }
  }

  /** Everything that shows stays, in order. */
  lemma NormalizedKeepsInk(s: string)
    ensures Ink(Normalized(s)) == Ink(s)
  {
    hide Ink, TrimEnd, TrimStart, Lines, Kept, Ended, Filtered;
    var kept := Kept(Lines(Filtered(s)), 0);
    FilteredKeepsInk(s);
    LinesKeepInk(Filtered(s));
    KeptKeepsInk(Lines(Filtered(s)), 0);
    EndedKeepsInk(kept);
    TrimKeepsInk(Ended(kept));
    TrimKeepsInk(TrimEnd(Ended(kept)));
  }
}
