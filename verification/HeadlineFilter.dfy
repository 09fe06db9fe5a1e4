/**
 The streaming headline filter: a buffer machine that is fed a text in pieces of any size and emits
 its lines as they are completed, headlines left out. What it emits depends on the text alone, and
 but for white space it is what stripping the whole text would have left.
 */
module HeadlineFilter {
  import opened HeadlinePattern
  import opened HeadlineText
  import opened HeadlineNormalForm
  import opened Selections

  function Concat(pieces: seq<string>): string {
    if pieces == [] then "" else Concat(pieces[..|pieces| - 1]) + pieces[|pieces| - 1]
  }

  /** All lines but the last, and the last: the part of a text that is complete, and the rest. */
  function Complete(s: string): seq<string> {
    var lines := Lines(s);
    lines[..|lines| - 1]
  }

  function Remainder(s: string): string {
    var lines := Lines(s);
    lines[|lines| - 1]
  }

  /** `isHeadlineLine` on a line that may still have its newline. */
  predicate IsHeadlineLine(line: string) {
    IsHeadline(if line != "" && line[|line| - 1] == '\n' then line[..|line| - 1] else line)
  }

  /** It is what the pattern, unanchored as a whole, finds in such a line. */
  lemma HeadlineLineIffMatch(content: string, line: string)
    requires NoNewline(content) && (line == content || line == content + "\n")
    ensures IsHeadlineLine(line) <==> exists i: nat, j: nat :: Matches(line, i, j)
  {
    ScanDecidesPattern(content);
    assert line[..|content|] == line[0..|content|] == content;
    if Headline(content) {
      assert Matches(line, 0, |content|);
    }
    if i: nat, j: nat :| Matches(line, i, j) {
      MatchIsTheLine(line, i, j);
      var e := i + LineEnd(line[i..]);
      HeadlineIsOneLine(line[i..e]);
      assert i == 0;
      assert line[0..] == line;
      assert e == |content|;
    }
  }

  /** What the filter emits for complete lines. */
  function Kept(lines: seq<string>): seq<string> {
    if lines == [] then []
    else (if IsHeadline(lines[0]) then [] else [lines[0] + "\n"]) + Kept(lines[1..])
  }

  /** What it emits for the rest when it is flushed. */
  function KeptRest(rest: string): seq<string> {
    if rest == "" || IsHeadline(rest) then [] else [rest]
  }

  /** The lines of the text that are no headlines, in order and with their newlines. */
  function Streamed(text: string): seq<string> {
    Kept(Complete(text)) + KeptRest(Remainder(text))
  }

  lemma {:induction false} KeptJoin(a: seq<string>, b: seq<string>)
    ensures Kept(a + b) == Kept(a) + Kept(b)
    decreases |a|
  {
    if a == [] {
      assert a + b == b;
    } else {
      assert (a + b)[1..] == a[1..] + b;
      KeptJoin(a[1..], b);
    }
  }

  /** What a filter that has emitted some pieces will have emitted after some more lines. */
  function EmittedAfter(emitted: seq<string>, lines: seq<string>): seq<string> {
    emitted + Kept(lines)
  }

  lemma EmitFirst(emitted: seq<string>, line: string, lines: seq<string>)
    ensures EmittedAfter(emitted, [line] + lines) ==
            EmittedAfter(if IsHeadline(line) then emitted else emitted + [line + "\n"], lines)
  {
    assert ([line] + lines)[1..] == lines;
  }

  class HeadlineLineFilter {
    var buffer: string
    var emitted: seq<string>

    constructor ()
      ensures buffer == "" && emitted == []
    {
      buffer, emitted := "", [];
    }

    method Write(s: string)
      requires NoNewline(buffer)
      modifies this
      ensures NoNewline(buffer) && buffer == Remainder(old(buffer) + s)
      ensures emitted == old(emitted) + Kept(Complete(old(buffer) + s))
    {
      ghost var whole := buffer + s;
      var rest := s;
      while true
        invariant NoNewline(buffer)
        invariant Remainder(buffer + rest) == Remainder(whole)
        invariant EmittedAfter(emitted, Complete(buffer + rest)) == EmittedAfter(old(emitted), Complete(whole))
        decreases |rest|
      {
        var idx := LineEnd(rest);
        if idx == |rest| {
          NothingComplete(buffer + rest);
          buffer := buffer + rest;
          return;
        }
        var line := rest[..idx + 1];
        ghost var content := FirstLine(buffer, rest);
        OneComplete(buffer + rest, content, rest[idx + 1..], emitted);
        rest := rest[idx + 1..];
        buffer := buffer + line;
        var complete := buffer;
        buffer := "";
        assert "" + rest == rest;
        if IsHeadlineLine(complete) {
          continue;
        }
        emitted := emitted + [complete];
      }
    }

    /** Emits the rest of the text, which no newline ended. */
    method Flush()
      requires NoNewline(buffer)
      modifies this
      ensures buffer == "" && emitted == old(emitted) + KeptRest(old(buffer))
    {
      if buffer == "" {
        return;
      }
      var line := buffer;
      buffer := "";
      if IsHeadlineLine(line) {
        return;
      }
      emitted := emitted + [line];
    }
  }

  lemma NothingComplete(s: string)
    requires NoNewline(s)
    ensures Complete(s) == [] && Remainder(s) == s
  {
    LinesOfOne(s);
  }

  lemma FirstCompleted(content: string, after: string)
    requires NoNewline(content)
    ensures Complete(content + "\n" + after) == [content] + Complete(after)
    ensures Remainder(content + "\n" + after) == Remainder(after)
  {
    hide Lines;
    LinesPrepend(content, after);
  }

  lemma WithoutNewline(content: string)
    requires NoNewline(content)
    ensures IsHeadlineLine(content + "\n") == IsHeadline(content)
  {
    assert (content + "\n")[..|content|] == content;
  }

  /** The first line of a text, however far it is buffered, and what is left after it. */
  lemma FirstLine(buffer: string, rest: string) returns (content: string)
    requires NoNewline(buffer) && LineEnd(rest) < |rest|
    ensures NoNewline(content)
    ensures buffer + rest[..LineEnd(rest) + 1] == content + "\n"
    ensures buffer + rest == content + "\n" + rest[LineEnd(rest) + 1..]
  {
    content := buffer + rest[..LineEnd(rest)];
  }

  /** One round of the `Write` loop: the first line of the buffered text is complete. */
  lemma OneComplete(whole: string, content: string, after: string, emitted: seq<string>)
    requires NoNewline(content) && whole == content + "\n" + after
    ensures Remainder(whole) == Remainder(after)
    ensures EmittedAfter(emitted, Complete(whole)) ==
            EmittedAfter(if IsHeadlineLine(content + "\n") then emitted else emitted + [content + "\n"],
                         Complete(after))
  {
    hide *;
    FirstCompleted(content, after);
    EmitFirst(emitted, content, Complete(after));
    WithoutNewline(content);
  }

  // --- Chunks --------------------------------------------------------------------------------------

  /** Some lines, the last of which goes on with a text. */
  function GoOn(lines: seq<string>, b: string): seq<string>
    requires lines != []
  {
    lines[..|lines| - 1] + Lines(lines[|lines| - 1] + b)
  }

  lemma GoOnAfterFirst(c: char, lines: seq<string>, b: string)
    requires lines != []
    ensures PutFirst(c, GoOn(lines, b)) == GoOn(PutFirst(c, lines), b)
  {
    hide Lines;
    if c != '\n' && |lines| == 1 {
      assert [c] + lines[0] + b == [c] + (lines[0] + b);
      FirstChar(c, lines[0] + b);
    }
  }

  /** Appending to a text only goes on with its last line. */
  lemma {:induction false} LinesAppend(a: string, b: string)
    ensures Lines(a + b) == GoOn(Lines(a), b)
    decreases |a|
  {
    if a == "" {
      assert Lines("") == [""];
      assert "" + b == b;
    } else {
      LinesAppend(a[1..], b);
      assert (a + b)[1..] == a[1..] + b;
      GoOnAfterFirst(a[0], Lines(a[1..]), b);
    }
  }

  lemma CompleteAppend(a: string, b: string)
    ensures Complete(a + b) == Complete(a) + Complete(Remainder(a) + b)
    ensures Remainder(a + b) == Remainder(Remainder(a) + b)
  {
    LinesAppend(a, b);
  }

  /**
   For every way of cutting a text into pieces, writing the pieces and flushing emits exactly the
   lines of the text that are no headlines.
   */
  method Stream(pieces: seq<string>) returns (emitted: seq<string>)
    ensures emitted == Streamed(Concat(pieces))
    ensures var all := LinePieces(Concat(pieces)); PicksAll(emitted, all, NotHeadlinesAt(all))
  {
    StreamedArePicked(Concat(pieces));
    var filter := new HeadlineLineFilter();
    assert pieces[..0] == [];
    for i := 0 to |pieces|
      invariant NoNewline(filter.buffer)
      invariant filter.buffer == Remainder(Concat(pieces[..i]))
      invariant filter.emitted == Kept(Complete(Concat(pieces[..i])))
      invariant fresh(filter)
    {
      assert pieces[..i + 1][..i] == pieces[..i];
      CompleteAppend(Concat(pieces[..i]), pieces[i]);
      KeptJoin(Complete(Concat(pieces[..i])), Complete(filter.buffer + pieces[i]));
      filter.Write(pieces[i]);
    }
    assert pieces[..|pieces|] == pieces;
    filter.Flush();
    emitted := filter.emitted;
  }

  // --- What is left out ---------------------------------------------------------------------------------

  function Terminated(lines: seq<string>): seq<string> {
    if lines == [] then [] else [lines[0] + "\n"] + Terminated(lines[1..])
  }

  /** The text cut behind each newline. */
  function LinePieces(text: string): seq<string> {
    Terminated(Complete(text)) + if Remainder(text) == "" then [] else [Remainder(text)]
  }

  lemma {:induction false} ConcatFirst(piece: string, pieces: seq<string>)
    ensures Concat([piece] + pieces) == piece + Concat(pieces)
    decreases |pieces|
  {
    if pieces == [] {
      assert [piece] + pieces == [piece] && [piece][..0] == [];
      assert Concat([piece]) == "" + piece;
    } else {
      var k := |pieces| - 1;
      assert ([piece] + pieces)[..k + 1] == [piece] + pieces[..k];
      ConcatFirst(piece, pieces[..k]);
    }
  }

  lemma {:induction false} TerminatedJoin(lines: seq<string>, rest: string)
    ensures Concat(Terminated(lines)) + rest == Join(lines + [rest])
    decreases |lines|
  {
    if lines == [] {
      assert lines + [rest] == [rest];
    } else {
      TerminatedJoin(lines[1..], rest);
      ConcatFirst(lines[0] + "\n", Terminated(lines[1..]));
      assert (lines + [rest])[1..] == lines[1..] + [rest];
    }
  }

  /** The pieces are the text, each of them a line with its newline; only the last may lack it. */
  lemma {:induction false} PiecesAreTheText(text: string)
    ensures Concat(LinePieces(text)) == text
    ensures forall k :: 0 <= k < |LinePieces(text)| ==> IsLinePiece(LinePieces(text)[k], k == |LinePieces(text)| - 1)
  {
    var lines, rest := Complete(text), Remainder(text);
    LinesHaveNoNewline(text);
    JoinLines(text);
    assert Lines(text) == lines + [rest];
    TerminatedJoin(lines, rest);
    TerminatedArePieces(lines);
    if rest != "" {
      assert (Terminated(lines) + [rest])[..|Terminated(lines)|] == Terminated(lines);
    } else {
      assert Terminated(lines) + [] == Terminated(lines);
    }
  }

  ghost predicate IsLinePiece(piece: string, last: bool) {
    piece != "" && NoNewline(piece[..|piece| - 1]) && (piece[|piece| - 1] == '\n' || last)
  }

  lemma {:induction false} TerminatedArePieces(lines: seq<string>)
    requires forall k :: 0 <= k < |lines| ==> NoNewline(lines[k])
    ensures |Terminated(lines)| == |lines|
    ensures forall k :: 0 <= k < |lines| ==> Terminated(lines)[k] == lines[k] + "\n"
    ensures forall k :: 0 <= k < |lines| ==> IsLinePiece(Terminated(lines)[k], false)
    decreases |lines|
  {
    if lines != [] {
      TerminatedArePieces(lines[1..]);
      assert (lines[0] + "\n")[..|lines[0]|] == lines[0];
    }
  }

  function NotHeadlinesAt(pieces: seq<string>): set<nat> {
    set k: nat | k < |pieces| && !IsHeadlineLine(pieces[k])
  }

  lemma {:induction false} TerminatedMore(lines: seq<string>, last: string)
    ensures Terminated(lines + [last]) == Terminated(lines) + [last + "\n"]
    ensures |Terminated(lines)| == |lines|
    decreases |lines|
  {
    if lines == [] {
      assert [] + [last] == [last] && [last][1..] == [];
    } else {
      assert (lines + [last])[1..] == lines[1..] + [last];
      TerminatedMore(lines[1..], last);
    }
  }

  /** One more piece, emitted unless it is a headline. */
  lemma PicksPiece(picked: seq<string>, pieces: seq<string>, last: string)
    requires PicksAll(picked, pieces, NotHeadlinesAt(pieces))
    ensures PicksAll(if IsHeadlineLine(last) then picked else picked + [last], pieces + [last],
                     NotHeadlinesAt(pieces + [last]))
  {
    hide PicksAll, IsHeadlineLine;
    PicksMore(picked, pieces, NotHeadlinesAt(pieces), last, NotHeadlinesAt(pieces + [last]));
  }

  lemma {:induction false} KeptArePicked(lines: seq<string>)
    requires forall k :: 0 <= k < |lines| ==> NoNewline(lines[k])
    ensures PicksAll(Kept(lines), Terminated(lines), NotHeadlinesAt(Terminated(lines)))
    decreases |lines|
  {
    if lines == [] {
      PicksNothing<string>(NotHeadlinesAt([]));
    } else {
      var k := |lines| - 1;
      var before, last := lines[..k], lines[k];
      KeptArePicked(before);
      hide *;
      assert lines == before + [last];
      KeptJoin(before, [last]);
      KeptOne(last);
      TerminatedMore(before, last);
      WithoutNewline(last);
      PicksPiece(Kept(before), Terminated(before), last + "\n");
      assert Kept(before) + [] == Kept(before);
    }
  }

  lemma KeptOne(line: string)
    ensures Kept([line]) == if IsHeadline(line) then [] else [line + "\n"]
  {
    assert [line][1..] == [];
  }

  /** What is streamed are the pieces of the text that are no headlines: all of them, whole and in order. */
  lemma {:induction false} StreamedArePicked(text: string)
    ensures PicksAll(Streamed(text), LinePieces(text), NotHeadlinesAt(LinePieces(text)))
  {
    var lines, rest := Complete(text), Remainder(text);
    LinesHaveNoNewline(text);
    KeptArePicked(lines);
    assert NoNewline(rest);
    hide PicksAll, Kept, Terminated, Complete, Remainder, NotHeadlinesAt;
    if rest == "" {
      assert Terminated(lines) + [] == Terminated(lines) && Kept(lines) + [] == Kept(lines);
    } else {
      assert IsHeadlineLine(rest) == IsHeadline(rest);
      PicksPiece(Kept(lines), Terminated(lines), rest);
      assert Kept(lines) + [] == Kept(lines);
    }
  }
}
