/**
 * The quote the bridge prints under an outbound reply and the stripper that
 * takes it off again on ingest (src/services/content.rs, src/sender.rs).
 */
module QuotedReply {
  import opened Text
  import opened PlainLines

  predicate StartsWith(s: string, p: string) {
    |p| <= |s| && s[..|p|] == p
  }

  // ----- Stripper and printer -----------------------------------------------------------

  const DIVIDER := "-----original message-----"

  /** An attribution line, or the divider of another client. */
  predicate IsCut(line: string) {
    var t := Trim(line);
    || (StartsWith(t, "On ") && EndsWith(t, "wrote:"))
    || (|t| == |DIVIDER| && AtCi(t, 0, DIVIDER))
  }

  predicate HasCut(lines: seq<string>) {
    exists i :: 0 <= i < |lines| && IsCut(lines[i])
  }

  /** The lines before the first cut. */
  function Kept(lines: seq<string>): seq<string> {
    if lines == [] || IsCut(lines[0]) then [] else [lines[0]] + Kept(lines[1..])
  }

  /** `strip_quoted_reply` */
  function Strip(s: string): string {
    TrimEnd(Join(Kept(Lines(s))))
  }

  method StripQuotedReply(s: string) returns (out: string)
    ensures out == Strip(s)
  {
    hide IsCut, Lines, Join, TrimEnd;
    var lines := Lines(s);
    var kept: seq<string> := [];
    var i := 0;
    while i < |lines| && !IsCut(lines[i])
      invariant 0 <= i <= |lines| && Kept(lines) == kept + Kept(lines[i..])
    {
      assert lines[i..][1..] == lines[i + 1..];
      kept := kept + [lines[i]];
      i := i + 1;
    }
    assert kept + [] == kept;
    out := TrimEnd(Join(kept));
  }

  function Header(from: string, date: string): string {
    "On " + date + ", " + from + " wrote:"
  }

  function Quoted(lines: seq<string>): seq<string> {
    if lines == [] then [] else [if lines[0] == "" then ">" else "> " + lines[0]] + Quoted(lines[1..])
  }

  /** `format_reply_quote` */
  function FormatReplyQuote(from: string, date: string, body: string): string {
    Header(from, date) + ("\n" + Join(Quoted(Lines(body))))
  }

  /** The body of an outbound reply: the text, a blank line, the quote. */
  function WithQuote(body: string, quote: string): string {
    body + "\n\n" + quote
  }

  // ----- A text with a line ending behind it ----------------------------------------------

  /** `e` are the lines of a text and `c` those of the text with a line ending behind it. */
  ghost predicate Closed(e: seq<string>, c: seq<string>) {
    || c == e + [""]
    || (e != [] && c == e[..|e| - 1] + [ChopCr(e[|e| - 1])])
  }

  lemma {:induction false} LinesClosed(a: string)
    ensures Closed(Lines(a), Lines(a + "\n"))
    decreases |a|
  {
    var t := a + "\n";
    var k := Find(a, '\n', 0);
    FindPrefix(a, "\n", '\n', 0);
    if a == "" {
      assert Lines(t[1..]) == [];
    } else if k == |a| {
      assert t[..k] == a && t[k + 1..] == "";
      assert Lines(a)[..0] == [];
    } else {
      LinesClosed(a[k + 1..]);
      assert t[k + 1..] == a[k + 1..] + "\n" && t[..k] == a[..k];
      var first, e, c := [ChopCr(a[..k])], Lines(a[k + 1..]), Lines(a[k + 1..] + "\n");
      if c == e + [""] {
        assert first + c == first + e + [""];
      } else {
        assert first + c == (first + e)[..|e|] + [ChopCr((first + e)[|e|])];
      }
    }
  }

  // ----- Trimming ----------------------------------------------------------------------------

  lemma TrimChopCr(line: string)
    ensures Trim(ChopCr(line)) == Trim(line)
  {
    if ChopCr(line) != line {
      TrimEndBlank(ChopCr(line), "\r");
      assert line == ChopCr(line) + "\r";
    }
  }

  // ----- Joining -----------------------------------------------------------------------------

  lemma TrimJoinClosed(e: seq<string>, c: seq<string>)
    requires Closed(e, c)
    ensures TrimEnd(Join(c)) == TrimEnd(Join(e))
  {
    if c == e + [""] {
      TrimJoinBlank(e);
    } else {
      var init, last := e[..|e| - 1], e[|e| - 1];
      assert e == init + [last];
      if last != ChopCr(last) {
        assert last == ChopCr(last) + "\r";
        if init == [] {
          TrimEndBlank(ChopCr(last), "\r");
        } else {
          JoinSnoc(init, last);
          JoinSnoc(init, ChopCr(last));
          assert Join(init) + "\n" + last == (Join(init) + "\n" + ChopCr(last)) + "\r";
          TrimEndBlank(Join(init) + "\n" + ChopCr(last), "\r");
        }
      }
    }
  }

  /** A line with something to see makes the joined text longer. */
  lemma {:induction false} JoinGrows(lines: seq<string>, more: seq<string>)
    requires more != [] && more[0] != "" && !IsWhitespace(more[0][0])
    ensures |TrimEnd(Join(lines + more))| > |Join(lines)|
    decreases |lines|
  {
    var all := lines + more;
    if lines == [] {
      assert all == more;
      TrimEndKeeps(Join(more), 0);
    } else {
      var at := PlaceOf(lines, more);
      TrimEndKeeps(Join(all), at);
    }
  }

  lemma {:induction false} PlaceOf(lines: seq<string>, more: seq<string>) returns (at: nat)
    requires more != [] && more[0] != ""
    ensures |Join(lines)| <= at < |Join(lines + more)| && Join(lines + more)[at] == more[0][0]
    decreases |lines|
  {
    var all := lines + more;
    if lines == [] {
      assert all == more;
      at := 0;
    } else {
      assert all[1..] == lines[1..] + more;
      var rest := PlaceOf(lines[1..], more);
      at := |lines[0]| + 1 + rest;
      assert Join(all) == lines[0] + "\n" + Join(all[1..]);
      assert Join(all)[at] == Join(all[1..])[rest];
      assert |Join(lines)| <= |lines[0]| + 1 + |Join(lines[1..])|;
    }
  }

  // ----- Cuts --------------------------------------------------------------------------------

  lemma {:induction false} KeptConcat(a: seq<string>, b: seq<string>)
    ensures Kept(a + b) == if HasCut(a) then Kept(a) else a + Kept(b)
  {
    hide IsCut;
    if a == [] {
      assert a + b == b;
    } else {
      assert (a + b)[1..] == a[1..] + b;
      KeptConcat(a[1..], b);
      assert [a[0]] + (a[1..] + Kept(b)) == a + Kept(b);
      assert HasCut(a) <==> IsCut(a[0]) || HasCut(a[1..]) by {
        if HasCut(a[1..]) {
          var i :| 0 <= i < |a[1..]| && IsCut(a[1..][i]);
          assert IsCut(a[i + 1]);
        }
        if HasCut(a) && !IsCut(a[0]) {
          var i :| 0 <= i < |a| && IsCut(a[i]);
          assert a[1..][i - 1] == a[i];
        }
      }
    }
  }

  lemma BlankIsNoCut()
    ensures !IsCut("")
  {
  }

  lemma CutChopCr(line: string)
    ensures IsCut(ChopCr(line)) == IsCut(line)
  {
    TrimChopCr(line);
  }

  /** Closing the last line moves no cut. */
  lemma KeptClosed(e: seq<string>, c: seq<string>)
    requires Closed(e, c)
    ensures HasCut(c) <==> HasCut(e)
    ensures HasCut(e) ==> Kept(c) == Kept(e)
  {
    hide IsCut;
    var init, x, y :=
      if c == e + [""] then e else e[..|e| - 1],
      if c == e + [""] then [] else [e[|e| - 1]],
      if c == e + [""] then [""] else [ChopCr(e[|e| - 1])];
    assert e == init + x && c == init + y;
    BlankIsNoCut();
    if x != [] { CutChopCr(x[0]); }
    KeptConcat(init, x);
    KeptConcat(init, y);
    HasCutConcat(init, x);
    HasCutConcat(init, y);
    assert HasCut(y) <==> IsCut(y[0]);
    assert x != [] ==> (HasCut(x) <==> IsCut(x[0]));
  }

  lemma HasCutConcat(a: seq<string>, b: seq<string>)
    ensures HasCut(a + b) <==> HasCut(a) || HasCut(b)
  {
    hide IsCut;
    if i :| 0 <= i < |a| && IsCut(a[i]) { assert (a + b)[i] == a[i]; }
    if i :| 0 <= i < |b| && IsCut(b[i]) { assert (a + b)[|a| + i] == b[i]; }
  }

  // ----- Main results ------------------------------------------------------------------------

  /** The first line of the printed header; all of it when sender and date hold no line ending. */
  function FirstLine(from: string, date: string): (line: string)
    ensures line != "" && line[0] == 'O'
  {
    FirstLineOf(Header(from, date));
    Lines(Header(from, date) + "\n")[0]
  }

  lemma FirstLineOf(h: string)
    requires h != "" && h[0] != '\n' && h[0] != '\r'
    ensures Lines(h + "\n") != [] && Lines(h + "\n")[0] != "" && Lines(h + "\n")[0][0] == h[0]
  {
    var t := h + "\n";
    assert Find(t, '\n', 0) == Find(t, '\n', 1) >= 1;
  }

  lemma HeaderIsOneLine(from: string, date: string)
    requires '\n' !in from && '\n' !in date
    ensures FirstLine(from, date) == Header(from, date)
  {
    var h := Header(from, date);
    assert h[0..] == h;
    FindAbsent(h, '\n', 0);
    FindPrefix(h, "\n", '\n', 0);
    assert (h + "\n")[..|h|] == h && (h + "\n")[|h| + 1..] == "";
    assert h[|h| - 1] == ':';
  }

  /** A header in one line is a line the stripper cuts at. */
  lemma HeaderIsCut(from: string, date: string)
    ensures IsCut(Header(from, date))
  {
    var h := Header(from, date);
    assert h[|h| - 1] == ':' && h[0] == 'O';
    assert Trim(h) == h;
    assert h[..3] == "On " && h[|h| - 6..] == "wrote:";
  }

  /** The lines of a reply with its quote: the closed lines of the body, a blank one, the header's, the quoted ones. */
  lemma LinesOfReply(body: string, header: string, text: string)
    ensures Lines(WithQuote(body, header + ("\n" + text))) ==
      Lines(body + "\n") + ([""] + (Lines(header + "\n") + Lines(text)))
  {
    hide Lines;
    var quote := header + ("\n" + text);
    assert WithQuote(body, quote) == body + "\n" + ("\n" + quote) && "\n" + quote == "" + "\n" + quote &&
      "" + "\n" == "\n";
    LinesSplit(body, "\n" + quote);
    LinesSplit("", quote);
    assert quote == header + "\n" + text;
    LinesSplit(header, text);
    assert Lines("\n") == [""] by { LinesOfBreak(); }
  }

  lemma LinesOfBreak()
    ensures Lines("\n") == [""]
  {
    assert "\n"[..0] == "" && "\n"[1..] == "";
  }

  /** What the stripper keeps of the body's closed lines `c`, a blank one and the quote `q`. */
  lemma StripsQuoteLines(e: seq<string>, c: seq<string>, q: seq<string>)
    requires Closed(e, c) && q != [] && q[0] != "" && !IsWhitespace(q[0][0])
    ensures TrimEnd(Join(Kept(c + ([""] + q)))) == TrimEnd(Join(Kept(e))) <==> HasCut(e) || IsCut(q[0])
  {
    hide IsCut, IsWhitespace, Join, TrimEnd;
    KeptClosed(e, c);
    KeptConcat(c, [""] + q);
    if !HasCut(e) {
      BlankIsNoCut();
      assert ([""] + q)[1..] == q;
      assert c + ([""] + Kept(q)) == (c + [""]) + Kept(q);
      KeptConcat(e, []);
      assert e + [] == e;
      TrimJoinBlank(c);
      TrimJoinClosed(e, c);
      if IsCut(q[0]) {
        assert c + [""] + [] == c + [""];
      } else {
        JoinGrows(c + [""], Kept(q));
      }
    }
  }

  /**
   * Stripping the reply gives what stripping its body alone gives if and only if
   * the body has a cut of its own or the header's first line is one.
   */
  lemma QuoteIsStrippedIffHeaderIsCut(body: string, from: string, date: string, quoted: string)
    ensures Strip(WithQuote(body, FormatReplyQuote(from, date, quoted))) == Strip(body) <==>
      HasCut(Lines(body)) || IsCut(FirstLine(from, date))
  {
    hide IsCut, Join, TrimEnd, HasCut, Lines;
    var header, text := Header(from, date), Join(Quoted(Lines(quoted)));
    LinesOfReply(body, header, text);
    LinesClosed(body);
    var q := Lines(header + "\n") + Lines(text);
    FirstLineOf(header);
    assert q[0] == FirstLine(from, date);
    StripsQuoteLines(Lines(body), Lines(body + "\n"), q);
  }

  /** A sender and a date without line endings always give such a header. */
  lemma QuoteIsStripped(body: string, from: string, date: string, quoted: string)
    requires '\n' !in from && '\n' !in date
    ensures Strip(WithQuote(body, FormatReplyQuote(from, date, quoted))) == Strip(body)
  {
    QuoteIsStrippedIffHeaderIsCut(body, from, date, quoted);
    HeaderIsOneLine(from, date);
    HeaderIsCut(from, date);
  }
}
