/**
 What is streamed and what is stripped agree. The pieces of a streamed text that are not blank are its
 lines of content that are no headlines, and those are, line by line, the content of the stripped
 text, whose outer ends alone are trimmed. So the two are equal when all space is erased from both.
 */
module HeadlineAgreement {
  import opened HeadlinePattern
  import opened HeadlineText
  import opened HeadlineNormalForm
  import opened HeadlineFilter

  /** The pieces that show something. */
  function Passed(pieces: seq<string>): seq<string> {
    if pieces == [] then []
    else (if Trim(pieces[0]) != "" then [pieces[0]] else []) + Passed(pieces[1..])
  }

  function WithoutEnd(line: string): string {
    if line != "" && line[|line| - 1] == '\n' then line[..|line| - 1] else line
  }

  function WithoutEnds(lines: seq<string>): seq<string> {
    if lines == [] then [] else [WithoutEnd(lines[0])] + WithoutEnds(lines[1..])
  }

  lemma TrimToNothingIff(s: string)
    ensures Trim(s) == "" <==> !HasText(s)
  {
    var a := TrimLeftIsSuffix(s);
    var b := TrimRightIsPrefix(TrimLeft(s));
    if a < |s| {
      assert TrimLeft(s)[0] == s[a];
    }
    if HasText(s) {
      var k :| 0 <= k < |s| && !IsSpace(s[k]);
      assert TrimLeft(s)[k - a] == s[k];
      assert b > 0;
    }
  }

  lemma NewlineIsNoText(line: string)
    requires NoNewline(line)
    ensures HasText(line + "\n") <==> HasText(line)
    ensures WithoutEnd(line + "\n") == line && WithoutEnd(line) == line
  {
    HasTextAfterSpace('\n', line);
    assert line + ['\n'] == line + "\n";
    assert (line + "\n")[..|line|] == line;
  }

  lemma {:induction false} PassedJoin(a: seq<string>, b: seq<string>)
    ensures Passed(a + b) == Passed(a) + Passed(b)
    decreases |a|
  {
    if a == [] {
      assert a + b == b;
    } else {
      assert (a + b)[1..] == a[1..] + b;
      PassedJoin(a[1..], b);
    }
  }

  lemma {:induction false} WithoutEndsJoin(a: seq<string>, b: seq<string>)
    ensures WithoutEnds(a + b) == WithoutEnds(a) + WithoutEnds(b)
    decreases |a|
  {
    if a == [] {
      assert a + b == b;
    } else {
      assert (a + b)[1..] == a[1..] + b;
      WithoutEndsJoin(a[1..], b);
    }
  }

  lemma PassedFirst(piece: string, passed: seq<string>)
    ensures WithoutEnds([piece] + passed) == [WithoutEnd(piece)] + WithoutEnds(passed)
    ensures [] + passed == passed
  {
    assert ([piece] + passed)[1..] == passed;
  }

  function TextLines(lines: seq<string>): seq<string> {
    NotHeadlines(Content(lines))
  }

  lemma TextLinesFirst(lines: seq<string>)
    requires lines != []
    ensures TextLines(lines) ==
            (if HasText(lines[0]) && !IsHeadline(lines[0]) then [lines[0]] else []) + TextLines(lines[1..])
  {
    FirstIsContent(lines);
    assert ([lines[0]] + Content(lines[1..]))[1..] == Content(lines[1..]);
    assert [] + Content(lines[1..]) == Content(lines[1..]);
  }

  lemma {:induction false} TextLinesLast(lines: seq<string>, last: string)
    ensures TextLines(lines + [last]) == TextLines(lines) + if HasText(last) && !IsHeadline(last) then [last] else []
    decreases |lines|
  {
    TextLinesFirst(lines + [last]);
    if lines != [] {
      TextLinesFirst(lines);
      assert (lines + [last])[1..] == lines[1..] + [last];
      TextLinesLast(lines[1..], last);
    } else {
      assert (lines + [last])[1..] == [] && TextLines([]) == [];
    }
  }

  lemma {:induction false} KeptIsTextLines(lines: seq<string>)
    requires forall k :: 0 <= k < |lines| ==> NoNewline(lines[k])
    ensures WithoutEnds(Passed(Kept(lines))) == TextLines(lines)
    decreases |lines|
  {
    if lines != [] {
      var l := lines[0];
      KeptIsTextLines(lines[1..]);
      TextLinesFirst(lines);
      NewlineIsNoText(l);
      TrimToNothingIff(l + "\n");
      var rest := Kept(lines[1..]);
      assert ([l + "\n"] + rest)[1..] == rest && [] + rest == rest;
      PassedFirst(l + "\n", Passed(rest));
    }
  }

  lemma RestIsTextLine(rest: string)
    requires NoNewline(rest)
    ensures WithoutEnds(Passed(KeptRest(rest))) == if HasText(rest) && !IsHeadline(rest) then [rest] else []
  {
    NewlineIsNoText(rest);
    TrimToNothingIff(rest);
    if KeptRest(rest) != [] {
      assert [rest][1..] == [];
      PassedFirst(rest, []);
      assert [rest] + [] == [rest];
    }
  }

  lemma TextNoNewline(text: string)
    ensures forall k :: 0 <= k < |Complete(text)| ==> NoNewline(Complete(text)[k])
    ensures NoNewline(Remainder(text))
    ensures Lines(text) == Complete(text) + [Remainder(text)]
  {
    LinesHaveNoNewline(text);
  }

  /** What is shown of a streamed text, newlines aside: its content without the headlines. */
  lemma ShownIsTextLines(text: string)
    ensures WithoutEnds(Passed(Streamed(text))) == NotHeadlines(Content(Lines(text)))
  {
    TextNoNewline(text);
    hide Lines, Complete, Remainder, Kept, KeptRest, NoNewline, HasText, IsHeadline, Passed, WithoutEnds;
    KeptIsTextLines(Complete(text));
    RestIsTextLine(Remainder(text));
    PassedJoin(Kept(Complete(text)), KeptRest(Remainder(text)));
    WithoutEndsJoin(Passed(Kept(Complete(text))), Passed(KeptRest(Remainder(text))));
    TextLinesLast(Complete(text), Remainder(text));
  }

  /**
   For every text: the stripped text has line by line the content of what is shown when the text is
   streamed, but for space trimmed off the outer ends.
   */
  lemma StrippedIsShown(text: string)
    ensures Content(Lines(StripHeadlineText(text))) == TrimEnds(WithoutEnds(Passed(Streamed(text))))
  {
    StripIsStripHeadlineText(text);
    StripKeepsContent(text);
    ShownIsTextLines(text);
  }

  // --- Erasing space -----------------------------------------------------------------------------

  function Erase(s: string): string {
    if s == "" then "" else (if IsSpace(s[0]) then "" else [s[0]]) + Erase(s[1..])
  }

  function Ink(lines: seq<string>): string {
    if lines == [] then "" else Erase(lines[0]) + Ink(lines[1..])
  }

  lemma {:induction false} EraseJoin(a: string, b: string)
    ensures Erase(a + b) == Erase(a) + Erase(b)
    decreases |a|
  {
    if a == "" {
      assert a + b == b;
    } else {
      assert (a + b)[1..] == a[1..] + b;
      EraseJoin(a[1..], b);
    }
  }

  lemma {:induction false} InkJoin(a: seq<string>, b: seq<string>)
    ensures Ink(a + b) == Ink(a) + Ink(b)
    decreases |a|
  {
    if a == [] {
      assert a + b == b;
    } else {
      assert (a + b)[1..] == a[1..] + b;
      InkJoin(a[1..], b);
    }
  }

  lemma InkOfOne(line: string)
    ensures Ink([line]) == Erase(line)
  {
    assert [line][1..] == [];
  }

  lemma EraseNewline(s: string)
    ensures Erase(s + "\n") == Erase(s)
  {
    EraseJoin(s, "\n");
    assert "\n"[1..] == "";
  }

  lemma {:induction false} InkOfLines(lines: seq<string>)
    requires lines != []
    ensures Erase(Join(lines)) == Ink(lines)
    decreases |lines|
  {
    if |lines| == 1 {
      InkOfOne(lines[0]);
      assert lines == [lines[0]];
    } else {
      InkOfLines(lines[1..]);
      EraseNewline(lines[0]);
      EraseJoin(lines[0] + "\n", Join(lines[1..]));
    }
  }

  lemma {:induction false} EraseBlank(line: string)
    requires !HasText(line)
    ensures Erase(line) == ""
  {
    if line != "" {
      assert forall k :: 0 <= k < |line| - 1 ==> line[1..][k] == line[k + 1];
      EraseBlank(line[1..]);
      assert IsSpace(line[0]);
    }
  }

  lemma {:induction false} InkOfContent(lines: seq<string>)
    ensures Ink(Content(lines)) == Ink(lines)
    decreases |lines|
  {
    if lines != [] {
      InkOfContent(lines[1..]);
      if HasText(lines[0]) {
        InkJoin([lines[0]], Content(lines[1..]));
        InkOfOne(lines[0]);
      } else {
        EraseBlank(lines[0]);
        assert [] + Content(lines[1..]) == Content(lines[1..]);
      }
    }
  }

  lemma {:induction false} EraseTrimLeft(s: string)
    ensures Erase(TrimLeft(s)) == Erase(s)
  {
    if s != "" && IsSpace(s[0]) {
      EraseTrimLeft(s[1..]);
    }
  }

  lemma {:induction false} EraseTrimRight(s: string)
    ensures Erase(TrimRight(s)) == Erase(s)
    decreases |s|
  {
    if s != "" && IsSpace(s[|s| - 1]) {
      var u, c := s[..|s| - 1], s[|s| - 1];
      EraseTrimRight(u);
      assert s == u + [c] && [c][1..] == "";
      EraseJoin(u, [c]);
      assert Erase([c]) == "";
    }
  }

  lemma InkOfTrimEnds(lines: seq<string>)
    ensures Ink(TrimEnds(lines)) == Ink(lines)
  {
    if lines != [] {
      EraseTrimLeft(lines[0]);
      InkJoin([TrimLeft(lines[0])], lines[1..]);
      InkOfOne(TrimLeft(lines[0]));
      var first := TrimFirst(lines);
      var init, last := first[..|first| - 1], first[|first| - 1];
      assert first == init + [last];
      EraseTrimRight(last);
      InkJoin(init, [last]);
      InkJoin(init, [TrimRight(last)]);
      InkOfOne(last);
      InkOfOne(TrimRight(last));
    }
  }

  lemma {:induction false} InkWithoutEnds(lines: seq<string>)
    ensures Ink(WithoutEnds(lines)) == Ink(lines)
    decreases |lines|
  {
    if lines != [] {
      InkWithoutEnds(lines[1..]);
      var l := lines[0];
      InkJoin([WithoutEnd(l)], WithoutEnds(lines[1..]));
      InkOfOne(WithoutEnd(l));
      if l != "" && l[|l| - 1] == '\n' {
        assert l == l[..|l| - 1] + "\n";
        EraseNewline(l[..|l| - 1]);
      }
    }
  }

  lemma {:induction false} EraseConcat(pieces: seq<string>)
    ensures Erase(Concat(pieces)) == Ink(pieces)
    decreases |pieces|
  {
    if pieces != [] {
      var init, last := pieces[..|pieces| - 1], pieces[|pieces| - 1];
      EraseConcat(init);
      EraseJoin(Concat(init), last);
      InkJoin(init, [last]);
      InkOfOne(last);
      assert pieces == init + [last];
    }
  }

  /** For every text, what is shown of it streamed and stripped is the same when space is erased. */
  lemma StreamedAndBatchAgree(text: string)
    ensures Erase(Concat(Passed(Streamed(text)))) == Erase(StripHeadlineText(text))
  {
    var shown := Passed(Streamed(text));
    EraseConcat(shown);
    InkWithoutEnds(shown);
    StrippedIsShown(text);
    InkOfTrimEnds(WithoutEnds(shown));
    var stripped := StripHeadlineText(text);
    InkOfContent(Lines(stripped));
    InkOfLines(Lines(stripped));
    JoinLines(stripped);
  }

  /** Nothing is shown exactly if nothing is left. */
  lemma NothingShownIff(text: string)
    ensures Passed(Streamed(text)) == [] <==> StripHeadlineText(text) == ""
  {
    StrippedIsShown(text);
    StripIsStripHeadlineText(text);
    var stripped := StripHeadlineText(text);
    var a, b := TrimmedIsPart(Squeeze(Join(CutLines(Lines(text)))));
    if stripped == "" {
      LinesOfOne("");
      assert Content([""]) == [];
    } else {
      assert TrimLeft(stripped) == stripped;
      FirstCharIsContent(stripped);
    }
  }

  lemma FirstCharIsContent(s: string)
    requires s != "" && TrimLeft(s) == s
    ensures Content(Lines(s)) != []
  {
    var a := TrimLeftIsSuffix(s);
    LinesSplit(s);
    FirstIsContent(Lines(s));
    var first := Lines(s)[0];
    assert !IsSpace(s[0]);
    assert LineEnd(s) > 0 && first[0] == s[0];
  }
}
