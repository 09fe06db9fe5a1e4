/**
 Stripping headlines from a whole text. The regular expression is applied at every line start of the
 text, its matches are cut out, long runs of newlines are shortened and the ends are trimmed. The
 lines of the text, as a list, say what all of that amounts to.
 */
module HeadlineText {
  import opened HeadlinePattern

  /** Go's unicode.IsSpace. */
  predicate IsSpace(c: char) {
    || '\U{09}' <= c <= '\U{0D}' || c == ' ' || c == '\U{85}' || c == '\U{A0}'
    || c == '\U{1680}' || '\U{2000}' <= c <= '\U{200A}'
    || c == '\U{2028}' || c == '\U{2029}' || c == '\U{202F}' || c == '\U{205F}' || c == '\U{3000}'
  }

  // --- Lines ----------------------------------------------------------------------------------------

  /** The lines of a text, without their newlines; a text ends with a line that has none. */
  function Lines(s: string): (lines: seq<string>)
    ensures lines != []
  {
    if s == "" then [""]
    else
      var rest := Lines(s[1..]);
      if s[0] == '\n' then [""] + rest else [[s[0]] + rest[0]] + rest[1..]
  }

  function Join(lines: seq<string>): string
    requires lines != []
  {
    if |lines| == 1 then lines[0] else lines[0] + "\n" + Join(lines[1..])
  }

  /** The position of the first newline, or the end of the text. */
  function LineEnd(s: string): (e: nat)
    ensures e <= |s|
    ensures e < |s| ==> s[e] == '\n'
    ensures forall k :: 0 <= k < e ==> s[k] != '\n'
  {
    if s == "" || s[0] == '\n' then 0 else 1 + LineEnd(s[1..])
  }

  lemma {:induction false} LinesSplit(s: string)
    ensures var e := LineEnd(s);
            && Lines(s)[0] == s[..e]
            && (if e == |s| then |Lines(s)| == 1 else Lines(s)[1..] == Lines(s[e + 1..]))
    decreases |s|
  {
    if s != "" && s[0] != '\n' {
      LinesSplit(s[1..]);
      var e := LineEnd(s[1..]);
      assert s[..e + 1] == [s[0]] + s[1..][..e];
      if e < |s[1..]| {
        assert s[1..][e + 1..] == s[e + 2..];
      }
    }
  }

  lemma {:induction false} JoinLines(s: string)
    ensures Join(Lines(s)) == s
    decreases |s|
  {
    LinesSplit(s);
    var e := LineEnd(s);
    if e < |s| {
      JoinLines(s[e + 1..]);
      assert s == s[..e] + "\n" + s[e + 1..];
    } else {
      assert s[..e] == s;
    }
  }

  lemma {:induction false} LinesHaveNoNewline(s: string)
    ensures forall k :: 0 <= k < |Lines(s)| ==> NoNewline(Lines(s)[k])
    decreases |s|
  {
    if s != "" {
      LinesHaveNoNewline(s[1..]);
    }
  }

  // --- Cutting the matches out ------------------------------------------------------------------------

  /** The anchors of a multi-line pattern: a line starts at i, a line ends at j. */
  predicate LineStarts(s: string, i: nat) {
    i <= |s| && (i == 0 || s[i - 1] == '\n')
  }

  predicate LineEnds(s: string, j: nat) {
    j <= |s| && (j == |s| || s[j] == '\n')
  }

  /** The pattern matches s[i..j]: a headline and perhaps one newline, between the anchors. */
  ghost predicate Matches(s: string, i: nat, j: nat) {
    i <= j <= |s| && LineStarts(s, i) && LineEnds(s, j) &&
    (Headline(s[i..j]) || (i < j && s[j - 1] == '\n' && Headline(s[i..j - 1])))
  }

  /** A match from i that takes the optional newline if it can. */
  ghost predicate Preferred(s: string, i: nat, j: nat) {
    Matches(s, i, j) && forall k: nat :: Matches(s, i, k) ==> k <= j
  }

  /** Replaces every match by nothing, from the left, scanning on behind each match. */
  ghost function Cut(s: string, i: nat): string
    requires i <= |s|
    decreases |s| - i
  {
    if i == |s| then ""
    else if j: nat :| Preferred(s, i, j) && i < j then Cut(s, j)
    else [s[i]] + Cut(s, i + 1)
  }

  // --- The same on lines --------------------------------------------------------------------------------

  /**
   A headline line loses its text, and its newline too when the line after it is empty: only then
   does the text end, or another newline follow, behind the newline.
   */
  function CutLines(lines: seq<string>): (kept: seq<string>)
    requires lines != []
    ensures kept != []
  {
    if |lines| == 1 then if IsHeadline(lines[0]) then [""] else lines
    else if !IsHeadline(lines[0]) then [lines[0]] + CutLines(lines[1..])
    else if lines[1] == "" then CutLines(lines[1..])
    else [""] + CutLines(lines[1..])
  }

  lemma MatchIsTheLine(s: string, i: nat, k: nat)
    requires Matches(s, i, k)
    ensures var e := i + LineEnd(s[i..]);
            Headline(s[i..e]) && (k == e || (k == e + 1 && e < |s|))
  {
    var e := i + LineEnd(s[i..]);
    var end := if Headline(s[i..k]) then k else k - 1;
    HeadlineIsOneLine(s[i..end]);
    assert forall p :: i <= p < end ==> s[i..end][p - i] == s[p];
    assert forall p :: i <= p < e ==> s[i..][p - i] == s[p];
    assert e < |s| ==> s[i..][e - i] == s[e];
  }

  lemma LineDecides(s: string, i: nat)
    requires i <= |s|
    ensures var e := i + LineEnd(s[i..]); IsHeadline(s[i..e]) <==> Headline(s[i..e])
  {
    var e := i + LineEnd(s[i..]);
    assert s[i..e] == s[i..][..e - i];
    ScanDecidesPattern(s[i..e]);
  }

  /** Where the preferred match of a headline line ends. */
  function MatchEnd(s: string, i: nat): (j: nat)
    requires i <= |s|
    ensures i <= j <= |s|
  {
    var e := i + LineEnd(s[i..]);
    if e < |s| && LineEnds(s, e + 1) then e + 1 else e
  }

  lemma PreferredIff(s: string, i: nat, j: nat)
    requires i <= |s|
    ensures var e := i + LineEnd(s[i..]);
            Preferred(s, i, j) <==> LineStarts(s, i) && IsHeadline(s[i..e]) && j == MatchEnd(s, i)
  {
    hide LineEnd, IsHeadline, Headline, Matches;
    var e := i + LineEnd(s[i..]);
    LineDecides(s, i);
    forall k: nat | Matches(s, i, k)
      ensures k <= MatchEnd(s, i) && LineStarts(s, i) && IsHeadline(s[i..e])
    {
      MatchIsTheLine(s, i, k);
      MatchIsAnchored(s, i, k);
    }
    if LineStarts(s, i) && IsHeadline(s[i..e]) {
      MatchEndMatches(s, i);
    }
  }

  lemma MatchIsAnchored(s: string, i: nat, k: nat)
    requires Matches(s, i, k)
    ensures i <= k <= |s| && LineStarts(s, i) && LineEnds(s, k)
  {
  }

  lemma MatchEndMatches(s: string, i: nat)
    requires i <= |s| && LineStarts(s, i) && Headline(s[i..i + LineEnd(s[i..])])
    ensures Matches(s, i, MatchEnd(s, i))
  {
    hide Headline;
    var e := i + LineEnd(s[i..]);
    assert e < |s| ==> s[i..][e - i] == s[e];
  }

  lemma CutAt(s: string, i: nat)
    requires i < |s|
    ensures var e := i + LineEnd(s[i..]);
            Cut(s, i) == if LineStarts(s, i) && IsHeadline(s[i..e]) then Cut(s, MatchEnd(s, i))
                         else [s[i]] + Cut(s, i + 1)
  {
    hide Preferred, LineEnd, IsHeadline, MatchEnd;
    forall j: nat
      ensures Preferred(s, i, j) <==>
              LineStarts(s, i) && IsHeadline(s[i..i + LineEnd(s[i..])]) && j == MatchEnd(s, i)
    {
      PreferredIff(s, i, j);
    }
    if LineStarts(s, i) && IsHeadline(s[i..i + LineEnd(s[i..])]) {
      MatchIsNotEmpty(s, i);
      assert Preferred(s, i, MatchEnd(s, i));
    }
  }

  lemma MatchIsNotEmpty(s: string, i: nat)
    requires i <= |s| && IsHeadline(s[i..i + LineEnd(s[i..])])
    ensures i < i + LineEnd(s[i..]) <= MatchEnd(s, i)
  {
    LineDecides(s, i);
    HeadlineIsOneLine(s[i..i + LineEnd(s[i..])]);
  }

  /** What lies between a position that starts no line and the end of its line is copied. */
  lemma {:induction false} CutCopies(s: string, p: nat, e: nat)
    requires p <= e <= |s| && !LineStarts(s, p)
    requires forall k :: p <= k < e ==> s[k] != '\n'
    ensures Cut(s, p) == s[p..e] + Cut(s, e)
    decreases e - p
  {
    if p < e {
      CutAt(s, p);
      CutCopies(s, p + 1, e);
      assert s[p..e] == [s[p]] + s[p + 1..e];
    }
  }

  /** Lines from a position on, told apart at the first newline after it. */
  lemma LinesFrom(s: string, i: nat)
    requires i <= |s|
    ensures var e := i + LineEnd(s[i..]);
            && e <= |s| && (e < |s| ==> s[e] == '\n') && (forall k :: i <= k < e ==> s[k] != '\n')
            && Lines(s[i..])[0] == s[i..e]
            && (if e == |s| then |Lines(s[i..])| == 1 else Lines(s[i..])[1..] == Lines(s[e + 1..]))
  {
    var e := i + LineEnd(s[i..]);
    LinesSplit(s[i..]);
    assert s[i..][..e - i] == s[i..e];
    assert forall k :: i <= k < |s| ==> s[i..][k - i] == s[k];
    if e < |s| {
      assert s[i..][e - i + 1..] == s[e + 1..];
    }
  }

  lemma FirstLineEmptyIff(s: string, i: nat)
    requires i <= |s|
    ensures Lines(s[i..])[0] == "" <==> LineEnds(s, i)
  {
    LinesFrom(s, i);
    assert i < |s| ==> s[i..][0] == s[i];
  }

  /** A text from a line start on, if `rest` is what becomes of the text behind that line. */
  function AfterLine(s: string, i: nat, rest: string): string
    requires i <= |s|
  {
    var e := i + LineEnd(s[i..]);
    if e == |s| then if IsHeadline(s[i..e]) then "" else s[i..e]
    else if !IsHeadline(s[i..e]) then s[i..e] + "\n" + rest
    else if LineEnds(s, e + 1) then rest else "\n" + rest
  }

  /** The start of the next line, or the end of the text. */
  function NextLine(s: string, i: nat): (n: nat)
    requires i <= |s|
    ensures i <= n <= |s| && (i < |s| ==> i < n)
  {
    var e := i + LineEnd(s[i..]);
    if e < |s| then e + 1 else e
  }

  /** A newline that ends a line with text starts no line itself, so it is copied. */
  lemma CutNewline(s: string, i: nat, e: nat)
    requires i < e < |s| && s[e] == '\n' && s[e - 1] != '\n'
    ensures Cut(s, e) == "\n" + Cut(s, e + 1)
  {
    hide Cut, IsHeadline, LineEnd;
    CutAt(s, e);
  }

  lemma CutHeadline(s: string, i: nat)
    requires LineStarts(s, i) && i < |s|
    requires IsHeadline(s[i..i + LineEnd(s[i..])])
    ensures Cut(s, i) == AfterLine(s, i, Cut(s, NextLine(s, i)))
  {
    hide Cut, IsHeadline, LineEnd, Lines;
    LinesFrom(s, i);
    MatchIsNotEmpty(s, i);
    var e := i + LineEnd(s[i..]);
    CutAt(s, i);
    if e == |s| {
      CutEnd(s);
    } else if !LineEnds(s, e + 1) {
      CutNewline(s, i, e);
    }
  }

  lemma Assoc(a: string, b: string, c: string)
    ensures a + (b + c) == (a + b) + c
  {
  }

  lemma CutPlain(s: string, i: nat)
    requires LineStarts(s, i) && i < |s|
    requires !IsHeadline(s[i..i + LineEnd(s[i..])])
    ensures Cut(s, i) == AfterLine(s, i, Cut(s, NextLine(s, i)))
  {
    hide Cut, IsHeadline, LineEnd, Lines;
    LinesFrom(s, i);
    var e := i + LineEnd(s[i..]);
    if e < |s| {
      CutPlainInner(s, i, e);
    } else {
      CutPlainLast(s, i);
    }
  }

  lemma CutFirst(s: string, i: nat)
    requires i < |s| && !IsHeadline(s[i..i + LineEnd(s[i..])])
    ensures Cut(s, i) == [s[i]] + Cut(s, i + 1)
  {
    hide *;
    CutAt(s, i);
  }

  lemma CutPlainInner(s: string, i: nat, e: nat)
    requires i <= e < |s| && s[e] == '\n' && forall k :: i <= k < e ==> s[k] != '\n'
    requires !IsHeadline(s[i..i + LineEnd(s[i..])])
    ensures Cut(s, i) == s[i..e] + "\n" + Cut(s, e + 1)
  {
    hide Cut, IsHeadline, LineEnd;
    CutFirst(s, i);
    if e == i {
      EmptyLine(s[i..e], Cut(s, e + 1));
    } else {
      CutCopies(s, i + 1, e);
      CutNewline(s, i, e);
      Copied(s, i, e, Cut(s, e + 1));
    }
  }

  lemma CutPlainLast(s: string, i: nat)
    requires i < |s| && forall k :: i <= k < |s| ==> s[k] != '\n'
    requires !IsHeadline(s[i..i + LineEnd(s[i..])])
    ensures Cut(s, i) == s[i..|s|]
  {
    hide Cut, IsHeadline, LineEnd, Join, CutLines, Lines;
    CutFirst(s, i);
    CutCopies(s, i + 1, |s|);
    CutEnd(s);
    CopiedLast(s, i);
  }

  lemma EmptyLine(line: string, rest: string)
    requires line == ""
    ensures line + "\n" + rest == "\n" + rest
  {
    assert line + "\n" == "\n";
  }

  lemma Copied(s: string, i: nat, e: nat, rest: string)
    requires i < e <= |s|
    ensures [s[i]] + (s[i + 1..e] + ("\n" + rest)) == s[i..e] + "\n" + rest
  {
    assert s[i..e] == [s[i]] + s[i + 1..e];
    Assoc([s[i]], s[i + 1..e], "\n" + rest);
    Assoc(s[i..e], "\n", rest);
  }

  lemma CopiedLast(s: string, i: nat)
    requires i < |s|
    ensures [s[i]] + (s[i + 1..|s|] + "") == s[i..|s|]
  {
  }

  lemma CutEnd(s: string)
    ensures Cut(s, |s|) == "" == Join(CutLines(Lines(s[|s|..])))
  {
    assert s[|s|..] == "";
  }

  lemma CutLinesCons(line: string, rest: seq<string>)
    requires rest != []
    ensures Join(CutLines([line] + rest)) ==
            var after := Join(CutLines(rest));
            if !IsHeadline(line) then line + "\n" + after else if rest[0] == "" then after else "\n" + after
  {
    assert ([line] + rest)[1..] == rest;
    var kept := if IsHeadline(line) then "" else line;
    assert ([kept] + CutLines(rest))[1..] == CutLines(rest);
    assert "" + "\n" == "\n";
  }

  lemma CutLinesFrom(s: string, i: nat)
    requires i < |s|
    ensures Join(CutLines(Lines(s[i..]))) == AfterLine(s, i, Join(CutLines(Lines(s[NextLine(s, i)..]))))
  {
    hide IsHeadline, LineEnd;
    LinesFrom(s, i);
    var e := i + LineEnd(s[i..]);
    if e == |s| {
      assert Lines(s[i..]) == [s[i..e]];
    } else {
      assert Lines(s[i..]) == [s[i..e]] + Lines(s[e + 1..]);
      FirstLineEmptyIff(s, e + 1);
      CutLinesCons(s[i..e], Lines(s[e + 1..]));
    }
  }

  lemma NextLineStarts(s: string, i: nat)
    requires i <= |s|
    ensures NextLine(s, i) == |s| || LineStarts(s, NextLine(s, i))
  {
    LinesFrom(s, i);
  }

  /** Cutting the matches out of a text is cutting the headlines out of its lines. */
  lemma {:induction false} CutIsCutLines(s: string, i: nat)
    requires i == |s| || LineStarts(s, i)
    ensures Cut(s, i) == Join(CutLines(Lines(s[i..])))
    decreases |s| - i
  {
    hide Lines, CutLines, Join, AfterLine, Cut;
    if i == |s| {
      CutEnd(s);
    } else {
      NextLineStarts(s, i);
      CutIsCutLines(s, NextLine(s, i));
      CutLinesFrom(s, i);
      if IsHeadline(s[i..i + LineEnd(s[i..])]) {
        CutHeadline(s, i);
      } else {
        CutPlain(s, i);
      }
    }
  }

  // --- Shortening runs of newlines --------------------------------------------------------------------

  function NewlineRun(s: string): (n: nat)
    ensures n <= |s|
    ensures forall k :: 0 <= k < n ==> s[k] == '\n'
    ensures n < |s| ==> s[n] != '\n'
  {
    if s != "" && s[0] == '\n' then 1 + NewlineRun(s[1..]) else 0
  }

  /** Replaces every run of three or more newlines by two. */
  function Collapse(s: string): string
    decreases |s|
  {
    if s == "" then ""
    else
      var n := NewlineRun(s);
      if n == 0 then [s[0]] + Collapse(s[1..])
      else (if n >= 3 then "\n\n" else s[..n]) + Collapse(s[n..])
  }

  predicate StartsTriple(s: string) {
    |s| >= 3 && s[0] == '\n' && s[1] == '\n' && s[2] == '\n'
  }

  /** Drops a newline that two more follow. */
  function Squeeze(s: string): string {
    if s == "" then ""
    else if StartsTriple(s) then Squeeze(s[1..])
    else [s[0]] + Squeeze(s[1..])
  }

  /** What becomes of a run of n newlines. */
  function Shortened(n: nat): string {
    if n == 0 then "" else if n == 1 then "\n" else "\n\n"
  }

  lemma {:induction false} SqueezeRun(s: string)
    ensures var n := NewlineRun(s); Squeeze(s) == Shortened(n) + Squeeze(s[n..])
    decreases |s|
  {
    if NewlineRun(s) > 0 {
      var n, t := NewlineRun(s), s[1..];
      assert t[n - 1..] == s[n..];
      assert StartsTriple(s) <==> n >= 3;
      SqueezeRun(t);
      LongerRun(n, Squeeze(s[n..]));
    } else {
      assert s[0..] == s;
    }
  }

  lemma LongerRun(n: nat, rest: string)
    requires n > 0
    ensures n < 3 ==> ['\n'] + (Shortened(n - 1) + rest) == Shortened(n) + rest
    ensures n >= 3 ==> Shortened(n - 1) == Shortened(n)
  {
  }

  lemma RunIsNewlines(s: string)
    ensures NewlineRun(s) < 3 ==> s[..NewlineRun(s)] == Shortened(NewlineRun(s))
  {
  }

  lemma {:induction false} CollapseIsSqueeze(s: string)
    ensures Collapse(s) == Squeeze(s)
    decreases |s|
  {
    if s != "" {
      var n := NewlineRun(s);
      if n == 0 {
        CollapseIsSqueeze(s[1..]);
      } else {
        CollapseIsSqueeze(s[n..]);
        SqueezeRun(s);
        RunIsNewlines(s);
      }
    }
  }

  // --- Stripping -----------------------------------------------------------------------------------------

  function TrimLeft(s: string): string {
    if s != "" && IsSpace(s[0]) then TrimLeft(s[1..]) else s
  }

  function TrimRight(s: string): string {
    if s != "" && IsSpace(s[|s| - 1]) then TrimRight(s[..|s| - 1]) else s
  }

  /** strings.TrimSpace. */
  function Trim(s: string): string {
    TrimRight(TrimLeft(s))
  }

  /** `stripHeadlineText`. */
  ghost function StripHeadlineText(s: string): string {
    if s == "" then s else Trim(Collapse(Cut(s, 0)))
  }

  /** The whole of `stripHeadlineText` as list and string functions, without the pattern. */
  function Strip(s: string): string {
    Trim(Squeeze(Join(CutLines(Lines(s)))))
  }

  lemma StripIsStripHeadlineText(s: string)
    ensures StripHeadlineText(s) == Strip(s)
  {
    if s != "" {
      CutIsCutLines(s, 0);
      assert s[0..] == s;
      CollapseIsSqueeze(Cut(s, 0));
    }
  }
}
