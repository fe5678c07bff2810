/** Texts as lines: `str::lines` and joining with `\n`. */
module PlainLines {
  import opened Text

  function ChopCr(line: string): string {
    if line != "" && line[|line| - 1] == '\r' then line[..|line| - 1] else line
  }

  /** `str::lines`: split at `\n` or `\r\n`; a final line ending starts no line. */
  function Lines(s: string): seq<string>
    decreases |s|
  {
    if s == "" then [] else
    var k := Find(s, '\n', 0);
    if k == |s| then [s] else [ChopCr(s[..k])] + Lines(s[k + 1..])
  }

  function Join(lines: seq<string>): string {
    if lines == [] then "" else
    if |lines| == 1 then lines[0] else lines[0] + "\n" + Join(lines[1..])
  }

  lemma {:induction false} FindPrefix(a: string, b: string, c: char, k: nat)
    requires k <= |a|
    ensures Find(a, c, k) < |a| ==> Find(a + b, c, k) == Find(a, c, k)
    ensures Find(a, c, k) == |a| && b != "" && b[0] == c ==> Find(a + b, c, k) == |a|
    decreases |a| - k
  {
    if k < |a| && a[k] != c { FindPrefix(a, b, c, k + 1); }
  }

  lemma FirstEnding(a: string, b: string)
    ensures
      var s, k := a + "\n" + b, Find(a, '\n', 0);
      Find(s, '\n', 0) == k < |s|
  {
    FindPrefix(a, "\n" + b, '\n', 0);
    assert a + "\n" + b == a + ("\n" + b);
  }

  lemma EndingParts(a: string, b: string, k: nat)
    requires k <= |a|
    ensures
      var s := a + "\n" + b;
      s[..k] == a[..k] && s[k + 1..] == if k < |a| then a[k + 1..] + "\n" + b else b
  {
  }

  lemma LinesFirst(a: string, b: string)
    ensures
      var k := Find(a, '\n', 0);
      Lines(a + "\n" + b) == [ChopCr(a[..k])] + (if k < |a| then Lines(a[k + 1..] + "\n" + b) else Lines(b))
  {
    hide Lines, ChopCr, Find;
    var k := Find(a, '\n', 0);
    FirstEnding(a, b);
    EndingParts(a, b, k);
    LinesStep(a + "\n" + b, k);
  }

  /** What follows a line ending is read on its own. */
  lemma {:induction false} LinesSplit(a: string, b: string)
    ensures Lines(a + "\n" + b) == Lines(a + "\n") + Lines(b)
    decreases |a|
  {
    hide Find, ChopCr, Lines;
    var k := Find(a, '\n', 0);
    LinesFirst(a, b);
    LinesFirst(a, "");
    assert a + "\n" + "" == a + "\n";
    if k < |a| {
      var rest := a[k + 1..];
      LinesSplit(rest, b);
      assert rest + "\n" + "" == rest + "\n";
      Regroup([ChopCr(a[..k])], Lines(rest + "\n"), Lines(b));
    } else {
      NoLines();
    }
  }

  lemma LinesStep(s: string, k: nat)
    requires k < |s| && Find(s, '\n', 0) == k
    ensures Lines(s) == [ChopCr(s[..k])] + Lines(s[k + 1..])
  {
  }

  lemma NoLines()
    ensures Lines("") == []
  {
  }

  lemma {:induction false} FindAbsent(s: string, c: char, k: nat)
    requires k <= |s| && c !in s[k..]
    ensures Find(s, c, k) == |s|
    decreases |s| - k
  {
    if k < |s| {
      assert s[k..][0] == s[k] && s[k..][1..] == s[k + 1..];
      FindAbsent(s, c, k + 1);
    }
  }

  /** Up to a solid character nothing is trimmed. */
  lemma {:induction false} TrimEndKeeps(s: string, k: nat)
    requires k < |s| && !IsWhitespace(s[k])
    ensures |TrimEnd(s)| > k
    decreases |s|
  {
    if IsWhitespace(s[|s| - 1]) { TrimEndKeeps(s[..|s| - 1], k); }
  }

  lemma {:induction false} JoinSnoc(lines: seq<string>, last: string)
    requires lines != []
    ensures Join(lines + [last]) == Join(lines) + "\n" + last
    decreases |lines|
  {
    assert (lines + [last])[1..] == lines[1..] + [last];
    if |lines| > 1 { JoinSnoc(lines[1..], last); }
  }

  lemma TrimJoinBlank(lines: seq<string>)
    ensures TrimEnd(Join(lines + [""])) == TrimEnd(Join(lines))
  {
    if lines == [] {
      assert lines + [""] == [""];
    } else {
      JoinSnoc(lines, "");
      assert Join(lines) + "\n" + "" == Join(lines) + "\n";
      TrimEndBlank(Join(lines), "\n");
    }
  }
}
