/**
 * What a reader gets back from a printed reply quote, and which lines the stripper
 * takes for its header: the two sides of `QuotedReply`, told from outside.
 */
module QuoteReading {
  import opened Wrappers
  import opened Text
  import opened PlainLines
  import opened QuotedReply

  // ----- Reading a quote ------------------------------------------------------------------

  /** The text between line feeds. */
  function Parts(s: string): seq<string>
    decreases |s|
  {
    var k := Find(s, '\n', 0);
    if k == |s| then [s] else [s[..k]] + Parts(s[k + 1..])
  }

  /** What a quoted line quotes. */
  function Unquoted(line: string): Option<string> {
    if line == ">" then Some("")
    else if StartsWith(line, "> ") then Some(line[2..])
    else None
  }

  function AllUnquoted(lines: seq<string>): Option<seq<string>> {
    if lines == [] then Some([]) else
    var first, rest := Unquoted(lines[0]), AllUnquoted(lines[1..]);
    if first.Some? && rest.Some? then Some([first.value] + rest.value) else None
  }

  /** The lines a quote quotes. */
  function ReadQuoted(s: string): Option<seq<string>> {
    if s == "" then Some([]) else AllUnquoted(Parts(s))
  }

  datatype Reading = Reading(from: string, date: string, lines: seq<string>)

  /** The first comma before a space, or the length. */
  function FindComma(s: string): (k: nat)
    ensures k <= |s|
  {
    if s == "" || (|s| >= 2 && s[0] == ',' && s[1] == ' ') then 0 else 1 + FindComma(s[1..])
  }

  /** Sender and date of an attribution line. */
  function ReadHeader(h: string): Option<(string, string)> {
    if !StartsWith(h, "On ") || !EndsWith(h, " wrote:") || |h| < 10 then None else
    var middle := h[3..|h| - 7];
    var k := FindComma(middle);
    if k + 2 > |middle| then None else Some((middle[k + 2..], middle[..k]))
  }

  /** A whole reply quote: its header, then its lines. */
  function ReadReply(s: string): Option<Reading> {
    var k := Find(s, '\n', 0);
    if k == |s| then None else
    var header, lines := ReadHeader(s[..k]), ReadQuoted(s[k + 1..]);
    if header.Some? && lines.Some? then Some(Reading(header.value.0, header.value.1, lines.value)) else None
  }

  // ----- Its lines ----------------------------------------------------------------------------

  ghost predicate OneLine(s: string) {
    '\n' !in s
  }

  lemma {:induction false} FindStops(s: string, c: char, k: nat)
    requires k <= |s|
    ensures Find(s, c, k) < |s| ==> s[Find(s, c, k)] == c
    ensures forall i | k <= i < Find(s, c, k) :: s[i] != c
    decreases |s| - k
  {
    if k < |s| && s[k] != c { FindStops(s, c, k + 1); }
  }

  lemma {:induction false} LinesAreLines(s: string)
    ensures forall i | 0 <= i < |Lines(s)| :: OneLine(Lines(s)[i])
    decreases |s|
  {
    if s != "" {
      var k := Find(s, '\n', 0);
      FindStops(s, '\n', 0);
      if k < |s| {
        LinesAreLines(s[k + 1..]);
        assert OneLine(s[..k]) && OneLine(ChopCr(s[..k]));
      }
    }
  }

  lemma PartsFirst(a: string, b: string)
    requires OneLine(a)
    ensures Parts(a + "\n" + b) == [a] + Parts(b)
  {
    assert a[0..] == a;
    FindAbsent(a, '\n', 0);
    FirstEnding(a, b);
    EndingParts(a, b, |a|);
    assert a[..|a|] == a;
    hide Find;
  }

  lemma PartsAlone(a: string)
    requires OneLine(a)
    ensures Parts(a) == [a]
  {
    assert a[0..] == a;
    FindAbsent(a, '\n', 0);
  }

  lemma {:induction false} PartsOfJoined(lines: seq<string>)
    requires lines != [] && forall i | 0 <= i < |lines| :: OneLine(lines[i])
    ensures Parts(Join(lines)) == lines
    decreases |lines|
  {
    hide Parts;
    if |lines| == 1 {
      PartsAlone(lines[0]);
    } else {
      PartsFirst(lines[0], Join(lines[1..]));
      PartsOfJoined(lines[1..]);
      assert lines == [lines[0]] + lines[1..];
    }
  }

  lemma {:induction false} QuotedLinesAreRead(lines: seq<string>)
    requires forall i | 0 <= i < |lines| :: OneLine(lines[i])
    ensures |Quoted(lines)| == |lines| && forall i | 0 <= i < |lines| ::
      OneLine(Quoted(lines)[i]) && Quoted(lines)[i] != ""
    ensures AllUnquoted(Quoted(lines)) == Some(lines)
    decreases |lines|
  {
    if lines != [] {
      var line, quoted := lines[0], Quoted(lines)[0];
      QuotedLinesAreRead(lines[1..]);
      assert Unquoted(quoted) == Some(line) && OneLine(quoted) by {
        if line != "" { assert quoted == "> " + line && quoted[2..] == line; }
      }
      assert Quoted(lines) == [quoted] + Quoted(lines[1..]);
      assert lines == [line] + lines[1..];
    }
  }

  lemma JoinIsEmptyIff(lines: seq<string>)
    requires forall i | 0 <= i < |lines| :: lines[i] != ""
    ensures Join(lines) == "" <==> lines == []
  {
  }

  /** Each line of the body stands in the quote behind its mark, in order, and nothing else does. */
  lemma QuoteIsRead(body: string)
    ensures ReadQuoted(Join(Quoted(Lines(body)))) == Some(Lines(body))
  {
    var lines := Lines(body);
    LinesAreLines(body);
    QuotedLinesAreRead(lines);
    hide Lines, Parts, AllUnquoted, Join;
    JoinIsEmptyIff(Quoted(lines));
    if lines != [] {
      PartsOfJoined(Quoted(lines));
    } else {
      assert Quoted([]) == [] && AllUnquoted([]) == Some([]) by { NothingQuoted(); }
    }
  }

  lemma NothingQuoted()
    ensures Quoted([]) == [] && AllUnquoted([]) == Some([])
  {
  }

  // ----- Its header -----------------------------------------------------------------------------

  /** No comma before a space. */
  ghost predicate CommaFree(date: string) {
    forall i | 0 <= i < |date| - 1 :: !(date[i] == ',' && date[i + 1] == ' ')
  }

  lemma {:induction false} CommaIsFound(date: string, rest: string)
    requires CommaFree(date)
    ensures FindComma(date + ", " + rest) == |date|
    decreases |date|
  {
    var s := date + ", " + rest;
    if date != "" {
      CommaIsFound(date[1..], rest);
      assert s[1..] == date[1..] + ", " + rest;
      assert |date| >= 2 ==> !(date[0] == ',' && date[1] == ' ');
      if |date| == 1 { assert s[1] == ','; }
    }
  }

  lemma HeaderIsRead(from: string, date: string)
    requires CommaFree(date)
    ensures ReadHeader(Header(from, date)) == Some((from, date))
  {
    var h := Header(from, date);
    var middle := date + ", " + from;
    assert h == "On " + middle + " wrote:";
    assert h[..3] == "On " && h[|h| - 7..] == " wrote:" && h[3..|h| - 7] == middle;
    CommaIsFound(date, from);
    assert middle[..|date|] == date && middle[|date| + 2..] == from;
  }

  /**
   * Whoever reads the printed quote gets back the sender, the date and the lines of the
   * mail that is quoted, each and in order, for every mail and every sender in one line
   * and a date in one line without a comma.
   */
  lemma ReplyIsReadBack(from: string, date: string, body: string)
    requires OneLine(from) && OneLine(date) && CommaFree(date)
    ensures ReadReply(FormatReplyQuote(from, date, body)) == Some(Reading(from, date, Lines(body)))
  {
    var h, q := Header(from, date), Join(Quoted(Lines(body)));
    var s := FormatReplyQuote(from, date, body);
    assert s == h + "\n" + q;
    assert OneLine(h);
    assert h[0..] == h;
    FindAbsent(h, '\n', 0);
    FirstEnding(h, q);
    EndingParts(h, q, |h|);
    assert h[..|h|] == h;
    HeaderIsRead(from, date);
    QuoteIsRead(body);
    hide Find, Lines, Quoted, Join, ReadHeader, ReadQuoted, Header;
  }

  /** A line ending behind a text that does not end in one adds no line. */
  lemma {:induction false} LinesUnended(a: string)
    requires a != "" && a[|a| - 1] != '\n' && a[|a| - 1] != '\r'
    ensures Lines(a + "\n") == Lines(a)
    decreases |a|
  {
    hide Lines, Find, ChopCr;
    var k := Find(a, '\n', 0);
    LinesFirst(a, "");
    assert a + "\n" + "" == a + "\n";
    if k < |a| {
      var rest := a[k + 1..];
      FindStopsAt(a, '\n', 0);
      LinesUnended(rest);
      LinesStep(a, k);
      assert rest + "\n" + "" == rest + "\n";
    } else {
      OneLineAlone(a);
    }
  }

  lemma OneLineAlone(a: string)
    requires a != "" && a[|a| - 1] != '\r' && Find(a, '\n', 0) == |a|
    ensures Lines(a) == [ChopCr(a[..|a|])] + Lines("")
  {
    hide Find;
    assert a[..|a|] == a && ChopCr(a) == a;
    NoLines();
  }

  lemma {:induction false} FindStopsAt(s: string, c: char, k: nat)
    requires k <= |s| && Find(s, c, k) < |s|
    ensures s[Find(s, c, k)] == c
    decreases |s| - k
  {
    if s[k] != c { FindStopsAt(s, c, k + 1); }
  }

  /** An outbound reply is its own lines, a blank line, and the lines of the quote. */
  lemma QuoteFollowsBlankLine(body: string, quote: string)
    requires body != "" && body[|body| - 1] != '\n' && body[|body| - 1] != '\r'
    ensures Lines(WithQuote(body, quote)) == Lines(body) + [""] + Lines(quote)
  {
    LinesUnended(body);
    LinesSplit(body + "\n", quote);
    LinesSplit(body, "\n");
    BlankLine();
    assert WithQuote(body, quote) == body + "\n" + "\n" + quote;
    hide Lines;
  }

  lemma BlankLine()
    ensures Lines("\n") == [""]
  {
    LinesStep("\n", 0);
    NoLines();
    assert "\n"[..0] == "" && "\n"[1..] == "";
  }

  // ----- Which lines are headers --------------------------------------------------------------------

  ghost predicate AllWhite(s: string) {
    forall i | 0 <= i < |s| :: IsWhitespace(s[i])
  }

  ghost predicate Solid(s: string) {
    s != "" && !IsWhitespace(s[0]) && !IsWhitespace(s[|s| - 1])
  }

  lemma {:induction false} TrimStartSplits(s: string) returns (k: nat)
    ensures k <= |s| && TrimStart(s) == s[k..] && AllWhite(s[..k])
    ensures s[k..] != "" ==> !IsWhitespace(s[k])
    decreases |s|
  {
    hide IsWhitespace;
    if s != "" && IsWhitespace(s[0]) {
      var j := TrimStartSplits(s[1..]);
      k := j + 1;
      assert s[1..][j..] == s[k..];
      forall i | 0 <= i < k ensures IsWhitespace(s[..k][i]) {
        if i > 0 { assert s[1..][..j][i - 1] == s[i]; }
      }
    } else {
      k := 0;
    }
  }

  lemma {:induction false} TrimEndSplits(s: string)
    ensures TrimEnd(s) <= s && AllWhite(s[|TrimEnd(s)|..])
    ensures TrimEnd(s) != "" ==> !IsWhitespace(TrimEnd(s)[|TrimEnd(s)| - 1])
    decreases |s|
  {
    hide IsWhitespace;
    if s != "" && IsWhitespace(s[|s| - 1]) {
      var init := s[..|s| - 1];
      TrimEndSplits(init);
      var k := |TrimEnd(init)|;
      forall i | 0 <= i < |s| - k ensures IsWhitespace(s[k..][i]) {
        if i < |s| - 1 - k { assert init[k..][i] == s[k + i]; }
      }
    }
  }

  /** A line is its trimmed text between blanks. */
  lemma TrimSplits(s: string) returns (a: string, b: string)
    ensures AllWhite(a) && AllWhite(b) && s == a + Trim(s) + b
  {
    TrimEndSplits(s);
    var e := TrimEnd(s);
    var k := TrimStartSplits(e);
    a, b := e[..k], s[|e|..];
    hide TrimEnd, TrimStart, AllWhite;
    assert e == e[..k] + e[k..] && s == e + b;
  }

  lemma {:induction false} TrimStartDrops(a: string, t: string)
    requires AllWhite(a) && (t == "" || !IsWhitespace(t[0]))
    ensures TrimStart(a + t) == t
    decreases |a|
  {
    hide IsWhitespace;
    if a == "" {
      assert a + t == t;
    } else {
      assert (a + t)[1..] == a[1..] + t;
      TrimStartDrops(a[1..], t);
    }
  }

  lemma TrimOfSolid(a: string, t: string, b: string)
    requires AllWhite(a) && AllWhite(b) && Solid(t)
    ensures Trim(a + t + b) == t
  {
    TrimEndBlank(a + t, b);
    assert (a + t)[|a + t| - 1] == t[|t| - 1];
    assert TrimEnd(a + t) == a + t;
    TrimStartDrops(a, t);
  }

  /** An attribution line as the bridge and other clients print it, or the divider, without blanks around it. */
  ghost predicate IsAttribution(t: string) {
    || (exists x :: t == "On " + x + "wrote:")
    || SameIgnoringCase(t, "-----original message-----")
  }

  lemma AttributionIsSolid(t: string)
    requires IsAttribution(t)
    ensures Solid(t)
  {
    if SameIgnoringCase(t, "-----original message-----") {
      assert Lower(t[0]) == '-' && Lower(t[|t| - 1]) == '-';
    } else {
      var x :| t == "On " + x + "wrote:";
      assert t[0] == 'O' && t[|t| - 1] == ':';
    }
  }

  lemma EndsDoNotOverlap(t: string)
    requires StartsWith(t, "On ") && EndsWith(t, "wrote:")
    ensures |t| >= 9
  {
    var n := |t|;
    assert n >= 6;
    EndIsElsewhere(t, 0);
    EndIsElsewhere(t, 1);
    EndIsElsewhere(t, 2);
    EndIsElsewhere(t, 3);
    EndIsElsewhere(t, 4);
    EndIsElsewhere(t, 5);
    hide StartsWith, EndsWith;
  }

  lemma Between(t: string, a: string, b: string)
    requires StartsWith(t, a) && EndsWith(t, b) && |t| >= |a| + |b|
    ensures t == a + t[|a|..|t| - |b|] + b
  {
  }

  /** No character of the end is the blank of the beginning. */
  lemma EndIsElsewhere(t: string, i: nat)
    requires StartsWith(t, "On ") && EndsWith(t, "wrote:") && i < 6
    ensures |t| - 6 + i != 2
  {
    assert t[2] == t[..3][2] == ' ';
    assert t[|t| - 6 + i] == t[|t| - 6..][i] == "wrote:"[i] != ' ';
  }

  lemma StartsAndEnds(t: string)
    ensures (exists x :: t == "On " + x + "wrote:") <==> StartsWith(t, "On ") && EndsWith(t, "wrote:")
  {
    if StartsWith(t, "On ") && EndsWith(t, "wrote:") {
      EndsDoNotOverlap(t);
      Between(t, "On ", "wrote:");
    }
    if x :| t == "On " + x + "wrote:" {
      assert t[..3] == "On " && t[|t| - 6..] == "wrote:";
    }
  }

  lemma AnyCaseIff(t: string, p: string)
    ensures SameIgnoringCase(t, p) <==> |t| == |p| && AtCi(t, 0, p)
  {
    AtCiIff(t, 0, p);
    hide AtCi, Lower;
    assert |t| == |p| ==> t[0..|p|] == t;
  }

  lemma CutsAtAttribution(t: string)
    ensures
      IsAttribution(t) <==>
        || (StartsWith(t, "On ") && EndsWith(t, "wrote:"))
        || (|t| == |DIVIDER| && AtCi(t, 0, DIVIDER))
  {
    StartsAndEnds(t);
    AnyCaseIff(t, DIVIDER);
    hide SameIgnoringCase, StartsWith, EndsWith, AtCi;
  }

  /** The stripper cuts at a line exactly if it is such a line, with blanks around it or none. */
  lemma IsCutIff(line: string)
    ensures IsCut(line) <==>
      exists a, t, b :: line == a + t + b && AllWhite(a) && AllWhite(b) && IsAttribution(t)
  {
    CutsAtAttribution(Trim(line));
    var a, b := TrimSplits(line);
    hide Trim, IsAttribution, AllWhite, AtCi;
    if IsCut(line) {
      assert line == a + Trim(line) + b;
    }
    forall x, t, y | line == x + t + y && AllWhite(x) && AllWhite(y) && IsAttribution(t) ensures IsCut(line) {
      AttributionIsSolid(t);
      TrimOfSolid(x, t, y);
    }
  }

  /** What is kept is every line before the first cut. */
  lemma {:induction false} KeptIsBeforeFirstCut(lines: seq<string>, k: nat)
    requires k <= |lines| && (forall i | 0 <= i < k :: !IsCut(lines[i])) && (k < |lines| ==> IsCut(lines[k]))
    ensures Kept(lines) == lines[..k]
    decreases k
  {
    hide IsCut;
    if k > 0 {
      KeptIsBeforeFirstCut(lines[1..], k - 1);
      assert lines[..k] == [lines[0]] + lines[1..][..k - 1];
    }
  }
}
