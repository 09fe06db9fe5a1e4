/**
 What stripping amounts to, line by line, and exactly when its result is in normal form.

 The lines of a text that are not all space are its content. Stripping keeps, in order, those that
 are no headlines and trims the outer ends of the first and the last. Trimming removes every Unicode
 space while a headline may be preceded and followed by blanks only, so it can lay bare a new one.
 */
module HeadlineNormalForm {
  import opened HeadlinePattern
  import opened HeadlineText

  predicate HasText(line: string) {
    exists k :: 0 <= k < |line| && !IsSpace(line[k])
  }

  /** The lines that are not all space. */
  function Content(lines: seq<string>): seq<string> {
    if lines == [] then []
    else (if HasText(lines[0]) then [lines[0]] else []) + Content(lines[1..])
  }

  function NotHeadlines(lines: seq<string>): (kept: seq<string>)
    ensures forall k :: 0 <= k < |kept| ==> !IsHeadline(kept[k])
  {
    if lines == [] then []
    else (if IsHeadline(lines[0]) then [] else [lines[0]]) + NotHeadlines(lines[1..])
  }

  /** The first of some lines without the space on its left, the last without that on its right. */
  function TrimFirst(lines: seq<string>): seq<string> {
    if lines == [] then [] else [TrimLeft(lines[0])] + lines[1..]
  }

  function TrimLast(lines: seq<string>): seq<string> {
    if lines == [] then [] else lines[..|lines| - 1] + [TrimRight(lines[|lines| - 1])]
  }

  lemma HeadlineHasText(line: string)
    requires IsHeadline(line)
    ensures HasText(line)
  {
    var i := HeadFound(line);
    assert !IsSpace(line[i]);
  }

  lemma {:induction false} ContentJoin(a: seq<string>, b: seq<string>)
    ensures Content(a + b) == Content(a) + Content(b)
    decreases |a|
  {
    if a == [] {
      assert a + b == b;
    } else {
      assert (a + b)[1..] == a[1..] + b;
      ContentJoin(a[1..], b);
    }
  }

  // --- Cutting -------------------------------------------------------------------------------------

  lemma {:induction false} LinesOfJoin(lines: seq<string>)
    requires lines != [] && forall k :: 0 <= k < |lines| ==> NoNewline(lines[k])
    ensures Lines(Join(lines)) == lines
    decreases |lines|
  {
    if |lines| == 1 {
      LinesOfOne(lines[0]);
      assert lines == [lines[0]];
    } else {
      LinesOfJoin(lines[1..]);
      LinesPrepend(lines[0], Join(lines[1..]));
      assert lines == [lines[0]] + lines[1..];
    }
  }

  lemma {:induction false} LinesOfOne(line: string)
    requires NoNewline(line)
    ensures Lines(line) == [line]
  {
    if line != "" {
      LinesOfOne(line[1..]);
      assert [line[0]] + line[1..] == line;
    }
  }

  lemma {:induction false} LinesPrepend(line: string, rest: string)
    requires NoNewline(line)
    ensures Lines(line + "\n" + rest) == [line] + Lines(rest)
    decreases |line|
  {
    var s := line + "\n" + rest;
    if line == "" {
      assert s[1..] == rest;
    } else {
      LinesPrepend(line[1..], rest);
      assert s[1..] == line[1..] + "\n" + rest;
      assert [line[0]] + line[1..] == line;
      assert ([line[1..]] + Lines(rest))[1..] == Lines(rest);
    }
  }

  lemma {:induction false} CutLinesNoNewline(lines: seq<string>)
    requires lines != [] && forall k :: 0 <= k < |lines| ==> NoNewline(lines[k])
    ensures forall k :: 0 <= k < |CutLines(lines)| ==> NoNewline(CutLines(lines)[k])
    decreases |lines|
  {
    if |lines| > 1 {
      CutLinesNoNewline(lines[1..]);
    }
  }

  /** Cutting keeps exactly the content that is no headline. */
  lemma {:induction false} CutKeepsContent(lines: seq<string>)
    requires lines != []
    ensures Content(CutLines(lines)) == NotHeadlines(Content(lines))
    decreases |lines|
  {
    var l, rest := lines[0], lines[1..];
    if IsHeadline(l) {
      HeadlineHasText(l);
    }
    var tail := if HasText(l) then [l] else [];
    if rest != [] {
      CutKeepsContent(rest);
      assert (tail + Content(rest))[|tail|..] == Content(rest);
    } else {
      assert Content(rest) == [];
    }
  }

  // --- Shortening ------------------------------------------------------------------------------------

  /** Shortening runs of newlines keeps the first line and all content. */
  lemma {:induction false} SqueezeKeepsContent(s: string)
    ensures Lines(Squeeze(s))[0] == Lines(s)[0]
    ensures Content(Lines(Squeeze(s))[1..]) == Content(Lines(s)[1..])
    ensures Content(Lines(Squeeze(s))) == Content(Lines(s))
    decreases |s|
  {
    if s != "" {
      SqueezeKeepsContent(s[1..]);
      if StartsTriple(s) {
        var u := s[1..];
        assert Lines(u)[0] == "" && Lines(s) == [""] + Lines(u);
        assert Lines(s)[1..] == Lines(u);
        assert Lines(u) == [""] + Lines(u)[1..];
      } else {
        var c, u, v := s[0], s[1..], Squeeze(s[1..]);
        assert ([c] + v)[1..] == v;
        FirstChar(c, u);
        FirstChar(c, v);
      }
    }
  }

  lemma FirstChar(c: char, u: string)
    ensures var lines := Lines([c] + u);
            if c == '\n' then lines[0] == "" && lines[1..] == Lines(u)
            else lines[0] == [c] + Lines(u)[0] && lines[1..] == Lines(u)[1..]
    ensures var lines := Lines([c] + u); lines == [lines[0]] + lines[1..]
  {
    assert ([c] + u)[1..] == u;
  }

  // --- Trimming ----------------------------------------------------------------------------------------

  lemma HasTextAfterSpace(c: char, line: string)
    requires IsSpace(c)
    ensures HasText([c] + line) <==> HasText(line)
    ensures HasText(line + [c]) <==> HasText(line)
    ensures TrimLeft([c] + line) == TrimLeft(line) && TrimRight(line + [c]) == TrimRight(line)
  {
    TextAround(c, line);
    hide HasText, IsSpace;
    assert ([c] + line)[1..] == line && (line + [c])[..|line|] == line;
  }

  lemma TextAround(c: char, line: string)
    requires IsSpace(c)
    ensures HasText([c] + line) <==> HasText(line)
    ensures HasText(line + [c]) <==> HasText(line)
  {
    hide IsSpace;
    if HasText(line) {
      var k :| 0 <= k < |line| && !IsSpace(line[k]);
      assert ([c] + line)[k + 1] == line[k] && (line + [c])[k] == line[k];
    }
  }

  lemma {:induction false} TrimLeftContent(s: string)
    ensures Content(Lines(TrimLeft(s))) == TrimFirst(Content(Lines(s)))
    decreases |s|
  {
    if s == "" {
      assert Content(Lines("")) == [];
    } else {
      FirstIsContent(Lines(s));
      if IsSpace(s[0]) {
        TrimLeftContent(s[1..]);
        SpaceInFront(s[0], s[1..]);
        assert s == [s[0]] + s[1..];
      } else {
        TextInFront(s);
      }
    }
  }

  lemma SpaceInFront(c: char, u: string)
    requires IsSpace(c)
    ensures TrimFirst(Content(Lines([c] + u))) == TrimFirst(Content(Lines(u)))
  {
    hide TrimFirst, Lines, Content;
    FirstChar(c, u);
    FirstIsContent(Lines([c] + u));
    FirstIsContent(Lines(u));
    HasTextAfterSpace(c, Lines(u)[0]);
    if c == '\n' {
      assert [] + Content(Lines(u)) == Content(Lines(u));
    } else {
      assert [] + Content(Lines(u)[1..]) == Content(Lines(u)[1..]);
    }
  }

  lemma TextInFront(s: string)
    requires s != "" && !IsSpace(s[0])
    ensures TrimFirst(Content(Lines(s))) == Content(Lines(s))
  {
    hide TrimFirst, Lines, Content;
    FirstChar(s[0], s[1..]);
    assert s == [s[0]] + s[1..];
    var first := Lines(s)[0];
    assert first[0] == s[0];
    FirstIsContent(Lines(s));
  }

  lemma FirstIsContent(lines: seq<string>)
    requires lines != []
    ensures Content(lines) == (if HasText(lines[0]) then [lines[0]] else []) + Content(lines[1..])
    ensures HasText(lines[0]) ==> TrimFirst(Content(lines)) == [TrimLeft(lines[0])] + Content(lines[1..])
  {
    assert ([lines[0]] + Content(lines[1..]))[1..] == Content(lines[1..]);
  }

  lemma LastIsContent(lines: seq<string>, last: string)
    ensures Content(lines + [last]) == Content(lines) + if HasText(last) then [last] else []
    ensures HasText(last) ==> TrimLast(Content(lines + [last])) == Content(lines) + [TrimRight(last)]
  {
    ContentJoin(lines, [last]);
    assert Content([last]) == if HasText(last) then [last] else [];
  }

  /** The lines of a text when a character is put in front of it or behind it. */
  function PutFirst(c: char, lines: seq<string>): seq<string>
    requires lines != []
  {
    if c == '\n' then [""] + lines else [[c] + lines[0]] + lines[1..]
  }

  function PutLast(lines: seq<string>, c: char): seq<string>
    requires lines != []
  {
    if c == '\n' then lines + [""] else lines[..|lines| - 1] + [lines[|lines| - 1] + [c]]
  }

  lemma PutFirstAndLast(c: char, lines: seq<string>, d: char)
    requires lines != []
    ensures PutLast(PutFirst(c, lines), d) == PutFirst(c, PutLast(lines, d))
  {
    var a, b := PutLast(PutFirst(c, lines), d), PutFirst(c, PutLast(lines, d));
    assert |a| == |b|;
    assert [c] + (lines[0] + [d]) == [c] + lines[0] + [d];
    assert forall k :: 0 <= k < |a| ==> a[k] == b[k];
  }

  lemma {:induction false} LastChar(u: string, c: char)
    ensures Lines(u + [c]) == PutLast(Lines(u), c)
    decreases |u|
  {
    if u == "" {
      assert "" + [c] == [c] && [c][1..] == "";
      assert Lines("") == [""];
      assert "" + [c] == [c] + "";
    } else {
      LastChar(u[1..], c);
      assert (u + [c])[1..] == u[1..] + [c];
      PutFirstAndLast(u[0], Lines(u[1..]), c);
    }
  }

  lemma PutLastContent(lines: seq<string>, c: char)
    requires lines != []
    ensures c == '\n' ==> Content(PutLast(lines, c)) == Content(lines)
    ensures IsSpace(c) ==> TrimLast(Content(PutLast(lines, c))) == TrimLast(Content(lines))
    ensures !IsSpace(c) ==> TrimLast(Content(PutLast(lines, c))) == Content(PutLast(lines, c))
  {
    var before, last := lines[..|lines| - 1], lines[|lines| - 1];
    assert lines == before + [last];
    LastIsContent(before, last);
    if c == '\n' {
      LastIsContent(lines, "");
    } else {
      LastIsContent(before, last + [c]);
      if IsSpace(c) {
        HasTextAfterSpace(c, last);
      } else {
        assert (last + [c])[|last|] == c;
        assert TrimRight(last + [c]) == last + [c];
      }
    }
  }

  lemma {:induction false} TrimRightContent(s: string)
    ensures Content(Lines(TrimRight(s))) == TrimLast(Content(Lines(s)))
    decreases |s|
  {
    if s == "" {
      assert Content(Lines("")) == [];
    } else {
      var c, u := s[|s| - 1], s[..|s| - 1];
      assert s == u + [c];
      LastChar(u, c);
      PutLastContent(Lines(u), c);
      if IsSpace(c) {
        TrimRightContent(u);
      }
    }
  }

  // --- Stripping ---------------------------------------------------------------------------------------

  /** What is left of some lines without headlines when the outer ends are trimmed. */
  function TrimEnds(lines: seq<string>): seq<string> {
    TrimLast(TrimFirst(lines))
  }

  /**
   The content of the stripped text is the content of the text without its headlines, in order, with
   the space trimmed off the outer ends. Nothing else is lost, changed or moved.
   */
  lemma {:induction false} StripKeepsContent(s: string)
    ensures Content(Lines(Strip(s))) == TrimEnds(NotHeadlines(Content(Lines(s))))
  {
    var cut := CutLines(Lines(s));
    LinesHaveNoNewline(s);
    CutLinesNoNewline(Lines(s));
    LinesOfJoin(cut);
    CutKeepsContent(Lines(s));
    SqueezeKeepsContent(Join(cut));
    TrimLeftContent(Squeeze(Join(cut)));
    TrimRightContent(TrimLeft(Squeeze(Join(cut))));
  }

  predicate AnyHeadline(lines: seq<string>) {
    exists k :: 0 <= k < |lines| && IsHeadline(lines[k])
  }

  predicate HasHeadline(s: string) {
    AnyHeadline(Lines(s))
  }

  lemma {:induction false} AnyHeadlineInContent(lines: seq<string>)
    ensures AnyHeadline(lines) <==> AnyHeadline(Content(lines))
    decreases |lines|
  {
    if lines != [] {
      AnyHeadlineInContent(lines[1..]);
      AnyHeadlineFirst(lines);
      if IsHeadline(lines[0]) {
        HeadlineHasText(lines[0]);
      }
      if HasText(lines[0]) {
        AnyHeadlineFirst(Content(lines));
        FirstIsContent(lines);
        assert Content(lines)[1..] == Content(lines[1..]);
      } else {
        FirstIsContent(lines);
        assert Content(lines) == Content(lines[1..]);
      }
    }
  }

  lemma AnyHeadlineFirst(lines: seq<string>)
    requires lines != []
    ensures AnyHeadline(lines) <==> IsHeadline(lines[0]) || AnyHeadline(lines[1..])
  {
    if k :| 0 <= k < |lines[1..]| && IsHeadline(lines[1..][k]) {
      assert IsHeadline(lines[k + 1]);
    }
    if k :| 0 < k < |lines| && IsHeadline(lines[k]) {
      assert IsHeadline(lines[1..][k - 1]);
    }
  }

  /** The first or the last of the lines looks like a headline once the outer space is gone. */
  predicate EndsExpose(kept: seq<string>) {
    kept != [] &&
    if |kept| == 1 then IsHeadline(TrimRight(TrimLeft(kept[0])))
    else IsHeadline(TrimLeft(kept[0])) || IsHeadline(TrimRight(kept[|kept| - 1]))
  }

  lemma {:induction false} AnyHeadlineJoin(a: seq<string>, b: seq<string>)
    ensures AnyHeadline(a + b) <==> AnyHeadline(a) || AnyHeadline(b)
    decreases |a|
  {
    if a == [] {
      assert a + b == b;
    } else {
      assert (a + b)[1..] == a[1..] + b;
      AnyHeadlineJoin(a[1..], b);
      AnyHeadlineFirst(a + b);
      AnyHeadlineFirst(a);
    }
  }

  lemma AnyHeadlineOfOne(line: string)
    ensures AnyHeadline([line]) <==> IsHeadline(line)
  {
    AnyHeadlineFirst([line]);
  }

  lemma TrimEndsParts(kept: seq<string>)
    requires kept != []
    ensures |kept| == 1 ==> TrimEnds(kept) == [TrimRight(TrimLeft(kept[0]))]
    ensures |kept| > 1 ==> TrimEnds(kept) == [TrimLeft(kept[0])] + kept[1..|kept| - 1] + [TrimRight(kept[|kept| - 1])]
  {
  }

  lemma AnyHeadlineInParts(first: string, inner: seq<string>, last: string)
    ensures AnyHeadline([first] + inner + [last]) <==> IsHeadline(first) || AnyHeadline(inner) || IsHeadline(last)
  {
    hide *;
    AnyHeadlineJoin([first] + inner, [last]);
    AnyHeadlineJoin([first], inner);
    AnyHeadlineOfOne(first);
    AnyHeadlineOfOne(last);
  }

  lemma EndsExposeIff(kept: seq<string>)
    requires !AnyHeadline(kept)
    ensures AnyHeadline(TrimEnds(kept)) <==> EndsExpose(kept)
  {
    hide TrimLeft, TrimRight, IsHeadline;
    if |kept| == 1 {
      TrimEndsParts(kept);
      AnyHeadlineOfOne(TrimRight(TrimLeft(kept[0])));
    } else if |kept| > 1 {
      ManyEndsExpose(kept);
    } else {
      assert TrimEnds(kept) == [];
    }
  }

  lemma ManyEndsExpose(kept: seq<string>)
    requires |kept| > 1 && !AnyHeadline(kept)
    ensures AnyHeadline(TrimEnds(kept)) <==> IsHeadline(TrimLeft(kept[0])) || IsHeadline(TrimRight(kept[|kept| - 1]))
  {
    hide *;
    var n := |kept|;
    TrimEndsParts(kept);
    assert kept == [kept[0]] + kept[1..n - 1] + [kept[n - 1]];
    AnyHeadlineInParts(kept[0], kept[1..n - 1], kept[n - 1]);
    AnyHeadlineInParts(TrimLeft(kept[0]), kept[1..n - 1], TrimRight(kept[n - 1]));
  }

  /**
   Trimming lays bare a headline: the text's first or last line of content that is no headline looks
   like one once the space in front of it, or behind it, is gone.
   */
  predicate TrimExposes(s: string) {
    EndsExpose(NotHeadlines(Content(Lines(s))))
  }

  /** The stripped text contains a headline exactly if trimming exposes one. */
  lemma HeadlineSurvivesIff(s: string)
    ensures HasHeadline(Strip(s)) <==> TrimExposes(s)
  {
    StripKeepsContent(s);
    AnyHeadlineInContent(Lines(Strip(s)));
    EndsExposeIff(NotHeadlines(Content(Lines(s))));
  }

  // --- No run of three newlines --------------------------------------------------------------------------

  ghost predicate NoTriple(s: string) {
    forall k :: 0 <= k < |s| - 2 ==> !(s[k] == '\n' && s[k + 1] == '\n' && s[k + 2] == '\n')
  }

  lemma {:induction false} SqueezeLeavesNoTriple(s: string)
    ensures NoTriple(Squeeze(s))
    ensures s != "" ==> Squeeze(s) != "" && Squeeze(s)[0] == s[0]
    ensures |Squeeze(s)| >= 2 && Squeeze(s)[0] == '\n' && Squeeze(s)[1] == '\n' ==>
              |s| >= 2 && s[0] == '\n' && s[1] == '\n'
    decreases |s|
  {
    if s != "" {
      SqueezeLeavesNoTriple(s[1..]);
    }
  }

  lemma {:induction false} SqueezeFixed(s: string)
    requires NoTriple(s)
    ensures Squeeze(s) == s
    decreases |s|
  {
    if s != "" {
      assert forall k :: 0 <= k < |s| - 1 ==> s[1..][k] == s[k + 1];
      SqueezeFixed(s[1..]);
    }
  }

  lemma {:induction false} TrimLeftIsSuffix(s: string) returns (a: nat)
    ensures a <= |s| && TrimLeft(s) == s[a..]
    ensures forall k :: 0 <= k < a ==> IsSpace(s[k])
    ensures TrimLeft(s) != "" ==> !IsSpace(TrimLeft(s)[0])
  {
    if s != "" && IsSpace(s[0]) {
      var b := TrimLeftIsSuffix(s[1..]);
      a := b + 1;
    } else {
      a := 0;
    }
  }

  lemma {:induction false} TrimRightIsPrefix(s: string) returns (b: nat)
    ensures b <= |s| && TrimRight(s) == s[..b]
    ensures forall k :: b <= k < |s| ==> IsSpace(s[k])
    ensures TrimRight(s) != "" ==> !IsSpace(TrimRight(s)[|TrimRight(s)| - 1])
    ensures s != "" && !IsSpace(s[0]) ==> b > 0
  {
    if s != "" && IsSpace(s[|s| - 1]) {
      var t := s[..|s| - 1];
      b := TrimRightIsPrefix(t);
      assert t[..b] == s[..b];
    } else {
      b := |s|;
    }
  }

  lemma TrimmedIsPart(s: string) returns (a: nat, b: nat)
    ensures a <= b <= |s| && Trim(s) == s[a..b]
    ensures TrimLeft(Trim(s)) == Trim(s) && TrimRight(Trim(s)) == Trim(s)
  {
    a := TrimLeftIsSuffix(s);
    var t := TrimLeft(s);
    var c := TrimRightIsPrefix(t);
    b := a + c;
    assert s[a..][..c] == s[a..b];
  }

  lemma NoTripleInPart(s: string, a: nat, b: nat)
    requires NoTriple(s) && a <= b <= |s|
    ensures NoTriple(s[a..b])
  {
    var t := s[a..b];
    assert forall k :: 0 <= k < |t| ==> t[k] == s[a + k];
  }

  /** The stripped text has no run of three newlines, whatever the text. */
  lemma StripLeavesNoTriple(s: string)
    ensures NoTriple(Strip(s))
  {
    hide Squeeze, Join, CutLines, Lines, TrimLeft, TrimRight, NoTriple;
    var squeezed := Squeeze(Join(CutLines(Lines(s))));
    SqueezeLeavesNoTriple(Join(CutLines(Lines(s))));
    var a, b := TrimmedIsPart(squeezed);
    NoTripleInPart(squeezed, a, b);
  }

  // --- Stripping twice -------------------------------------------------------------------------------------

  lemma {:induction false} CutFixed(lines: seq<string>)
    requires lines != [] && !AnyHeadline(lines)
    ensures CutLines(lines) == lines
    decreases |lines|
  {
    AnyHeadlineFirst(lines);
    if |lines| > 1 {
      CutFixed(lines[1..]);
    }
  }

  lemma {:induction false} FewerNotHeadlines(lines: seq<string>)
    ensures |NotHeadlines(lines)| <= |lines|
    ensures AnyHeadline(lines) ==> |NotHeadlines(lines)| < |lines|
    decreases |lines|
  {
    if lines != [] {
      FewerNotHeadlines(lines[1..]);
      AnyHeadlineFirst(lines);
    }
  }

  /** Stripping is idempotent on a text exactly if trimming exposes no headline in it. */
  lemma {:induction false} StripIdempotentIff(s: string)
    ensures Strip(Strip(s)) == Strip(s) <==> !TrimExposes(s)
  {
    var t := Strip(s);
    HeadlineSurvivesIff(s);
    if HasHeadline(t) {
      StripKeepsContent(t);
      AnyHeadlineInContent(Lines(t));
      FewerNotHeadlines(Content(Lines(t)));
    } else {
      CutFixed(Lines(t));
      JoinLines(t);
      StripLeavesNoTriple(s);
      SqueezeFixed(t);
      var a, b := TrimmedIsPart(Squeeze(Join(CutLines(Lines(s)))));
    }
  }

  // --- Texts with plain space only --------------------------------------------------------------------------

  predicate PlainSpace(s: string) {
    forall k :: 0 <= k < |s| && IsSpace(s[k]) ==> Blank(s[k]) || s[k] == '\n'
  }

  lemma MarginAfterBlanks(blanks: string, margin: string, marker: string)
    requires AllBlank(blanks) && Margin(margin, marker)
    ensures Margin(blanks + margin, marker) && Margin(margin + blanks, marker)
  {
    if !AllBlank(margin) {
      var a: nat :| MarkerAt(margin, marker, a);
      var n, left, right := |marker|, blanks + margin, margin + blanks;
      assert left[..|blanks| + a] == blanks + margin[..a];
      assert left[|blanks| + a..|blanks| + a + n] == margin[a..a + n];
      assert left[|blanks| + a + n..] == margin[a + n..];
      assert MarkerAt(left, marker, |blanks| + a);
      assert right[..a] == margin[..a] && right[a..a + n] == margin[a..a + n];
      assert right[a + n..] == margin[a + n..] + blanks;
      assert MarkerAt(right, marker, a);
    }
  }

  /** Blanks around a headline leave it one. */
  lemma HeadlineWithBlanks(left: string, line: string, right: string)
    requires AllBlank(left) && AllBlank(right) && IsHeadline(line)
    ensures IsHeadline(left + line + right)
  {
    var whole := left + line + right;
    var i := HeadFound(line);
    var j := TailFound(line);
    assert whole[..|left| + i] == left + line[..i];
    MarginAfterBlanks(left, line[..i], COMMENT_OPEN);
    assert Opens(whole, |left| + i);
    assert whole[|left| + j + 1..] == line[j + 1..] + right;
    MarginAfterBlanks(right, line[j + 1..], COMMENT_CLOSE);
    assert Closes(whole, |left| + j);
    HeadFinds(whole, |left| + i);
    TailFinds(whole, |left| + j);
  }

  lemma {:induction false} LinesArePlain(s: string)
    requires PlainSpace(s)
    ensures forall k :: 0 <= k < |Lines(s)| ==> PlainSpace(Lines(s)[k])
    decreases |s|
  {
    if s != "" {
      assert forall k :: 0 <= k < |s| - 1 ==> s[1..][k] == s[k + 1];
      LinesArePlain(s[1..]);
    }
  }

  /** Trimming a plain line drops blanks only, so it makes no headline of it. */
  lemma PlainLeft(line: string)
    requires PlainSpace(line) && NoNewline(line) && !IsHeadline(line)
    ensures PlainSpace(TrimLeft(line)) && NoNewline(TrimLeft(line)) && !IsHeadline(TrimLeft(line))
  {
    hide IsHeadline, TrimLeft;
    var a := TrimLeftIsSuffix(line);
    assert forall k :: a <= k < |line| ==> line[a..][k - a] == line[k];
    NotHeadlineInside(line, a, |line|);
    assert line[a..|line|] == line[a..];
  }

  lemma PlainRight(line: string)
    requires PlainSpace(line) && NoNewline(line) && !IsHeadline(line)
    ensures !IsHeadline(TrimRight(line))
  {
    hide IsHeadline, TrimRight;
    var b := TrimRightIsPrefix(line);
    NotHeadlineInside(line, 0, b);
    assert line[0..b] == line[..b];
  }

  lemma TrimmingPlainLine(line: string)
    requires PlainSpace(line) && NoNewline(line) && !IsHeadline(line)
    ensures !IsHeadline(TrimLeft(line)) && !IsHeadline(TrimRight(line)) && !IsHeadline(TrimRight(TrimLeft(line)))
  {
    hide *;
    PlainLeft(line);
    PlainRight(line);
    PlainRight(TrimLeft(line));
  }

  lemma NotHeadlineInside(line: string, a: nat, b: nat)
    requires a <= b <= |line| && !IsHeadline(line)
    requires forall k :: 0 <= k < a ==> Blank(line[k])
    requires forall k :: b <= k < |line| ==> Blank(line[k])
    ensures !IsHeadline(line[a..b])
  {
    hide IsHeadline;
    assert line == line[..a] + line[a..b] + line[b..];
    if IsHeadline(line[a..b]) {
      HeadlineWithBlanks(line[..a], line[a..b], line[b..]);
    }
  }

  lemma {:induction false} NotHeadlinesMembers(lines: seq<string>, l: string)
    ensures l in NotHeadlines(lines) <==> l in lines && !IsHeadline(l)
    decreases |lines|
  {
    if lines != [] {
      NotHeadlinesMembers(lines[1..], l);
    }
  }

  lemma {:induction false} ContentMembers(lines: seq<string>, l: string)
    ensures l in Content(lines) <==> l in lines && HasText(l)
    decreases |lines|
  {
    if lines != [] {
      ContentMembers(lines[1..], l);
    }
  }

  /** For texts whose only space is blanks and newlines, stripping always ends in normal form. */
  lemma PlainTextIsNormal(s: string)
    requires PlainSpace(s)
    ensures !HasHeadline(Strip(s)) && NoTriple(Strip(s)) && Strip(Strip(s)) == Strip(s)
  {
    var kept := NotHeadlines(Content(Lines(s)));
    LinesArePlain(s);
    LinesHaveNoNewline(s);
    if kept != [] {
      forall k | 0 <= k < |kept|
        ensures PlainSpace(kept[k]) && NoNewline(kept[k])
      {
        NotHeadlinesMembers(Content(Lines(s)), kept[k]);
        ContentMembers(Lines(s), kept[k]);
      }
      TrimmingPlainLine(kept[0]);
      TrimmingPlainLine(kept[|kept| - 1]);
    }
    HeadlineSurvivesIff(s);
    StripIdempotentIff(s);
    StripLeavesNoTriple(s);
  }

  // --- Texts with other space ---------------------------------------------------------------------------------

  lemma StripOneLine(line: string)
    requires NoNewline(line)
    ensures Strip(line) == if IsHeadline(line) then "" else Trim(line)
  {
    hide IsHeadline, TrimLeft, TrimRight, Squeeze;
    LinesOfOne(line);
    SqueezeFixed(line);
    SqueezeFixed("");
    NothingToTrim();
  }

  lemma NothingToTrim()
    ensures Trim("") == ""
  {
  }

  /**
   Any other space, like U+3000, in front of a headline hides it and trimming lays it bare: such a text
   is stripped to a headline, and to nothing when it is stripped once more.
   */
  lemma OtherSpaceHidesHeadline(c: char, line: string)
    requires IsSpace(c) && !Blank(c) && c != '\n'
    requires IsHeadline(line) && NoNewline(line) && Trim(line) == line
    ensures TrimExposes([c] + line) && Strip([c] + line) == line && Strip(Strip([c] + line)) == ""
  {
    var hidden := [c] + line;
    HasTextAfterSpace(c, line);
    assert !IsHeadline(hidden) by {
      assert DropBlanks(hidden) == hidden && DropPrefix(hidden, COMMENT_OPEN) == hidden;
    }
    hide IsHeadline, TrimLeft, TrimRight;
    StripOneLine(hidden);
    StripOneLine(line);
    HeadlineHasText(line);
    assert line != "";
    StripIdempotentIff(hidden);
  }
}
