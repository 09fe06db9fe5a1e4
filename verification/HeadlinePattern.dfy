/**
 The shape of a headline line, twice: as the regular expression states it, and as a scan from both
 ends that decides it. A headline is an opening bracket and a later closing bracket with nothing
 before and after them but blanks and one optional comment marker on each side.
 */
module HeadlinePattern {

  const COMMENT_OPEN := "<!--"
  const COMMENT_CLOSE := "-->"

  predicate Blank(c: char) {
    c == ' ' || c == '\t'
  }

  /** The white square brackets U+27E6 and U+301A. */
  predicate Opener(c: char) {
    c == '\U{27E6}' || c == '\U{301A}'
  }

  /** Their closing partners U+27E7 and U+301B. */
  predicate Closer(c: char) {
    c == '\U{27E7}' || c == '\U{301B}'
  }

  // --- The regular expression -------------------------------------------------------------------

  ghost predicate AllBlank(s: string) {
    forall k :: 0 <= k < |s| ==> Blank(s[k])
  }

  ghost predicate NoNewline(s: string) {
    forall k :: 0 <= k < |s| ==> s[k] != '\n'
  }

  /** Blanks, the marker if it is there, and blanks. */
  ghost predicate Margin(s: string, marker: string) {
    AllBlank(s) || exists a: nat :: MarkerAt(s, marker, a)
  }

  ghost predicate MarkerAt(s: string, marker: string, a: nat) {
    && a + |marker| <= |s|
    && AllBlank(s[..a]) && s[a..a + |marker|] == marker && AllBlank(s[a + |marker|..])
  }

  ghost predicate Opens(s: string, i: nat) {
    i < |s| && Opener(s[i]) && Margin(s[..i], COMMENT_OPEN)
  }

  ghost predicate Closes(s: string, j: nat) {
    j < |s| && Closer(s[j]) && Margin(s[j + 1..], COMMENT_CLOSE)
  }

  /** The text between the anchors of the pattern; its middle matches anything but a newline. */
  ghost predicate Headline(s: string) {
    exists i: nat, j: nat :: i < j && Opens(s, i) && Closes(s, j) && NoNewline(s[i + 1..j])
  }

  // --- The two-ended scan -------------------------------------------------------------------------

  function DropBlanks(s: string): string {
    if s != "" && Blank(s[0]) then DropBlanks(s[1..]) else s
  }

  function DropBlanksRight(s: string): string {
    if s != "" && Blank(s[|s| - 1]) then DropBlanksRight(s[..|s| - 1]) else s
  }

  function DropPrefix(s: string, p: string): string {
    if p <= s then s[|p|..] else s
  }

  function DropSuffix(s: string, p: string): string {
    if |p| <= |s| && s[|s| - |p|..] == p then s[..|s| - |p|] else s
  }

  function Head(s: string): string {
    DropBlanks(DropPrefix(DropBlanks(s), COMMENT_OPEN))
  }

  function Tail(s: string): string {
    DropBlanksRight(DropSuffix(DropBlanksRight(s), COMMENT_CLOSE))
  }

  predicate IsHeadline(s: string) {
    var h, t := Head(s), Tail(s);
    h != "" && Opener(h[0]) && t != "" && Closer(t[|t| - 1])
  }

  // --- The scan decides the pattern -----------------------------------------------------------------

  ghost predicate BlankRange(s: string, a: nat, b: nat)
    requires b <= |s|
  {
    forall k :: a <= k < b ==> Blank(s[k])
  }

  lemma RangeIsBlank(s: string, a: nat, b: nat)
    requires a <= b <= |s|
    ensures AllBlank(s[a..b]) <==> BlankRange(s, a, b)
  {
    assert forall k :: a <= k < b ==> s[a..b][k - a] == s[k];
  }

  lemma RangeOfSuffix(s: string, m: nat, b: nat)
    requires m + b <= |s|
    ensures BlankRange(s[m..], 0, b) <==> BlankRange(s, m, m + b)
  {
    assert forall k :: m <= k < m + b ==> s[m..][k - m] == s[k];
  }

  lemma RangeOfPrefix(s: string, m: nat, a: nat)
    requires a <= m <= |s|
    ensures BlankRange(s[..m], a, m) <==> BlankRange(s, a, m)
  {
    assert forall k :: a <= k < m ==> s[..m][k] == s[k];
  }

  lemma {:induction false} DropBlanksSplit(s: string) returns (a: nat)
    ensures a <= |s| && DropBlanks(s) == s[a..] && BlankRange(s, 0, a)
    ensures a < |s| ==> !Blank(s[a])
  {
    if s != "" && Blank(s[0]) {
      var b := DropBlanksSplit(s[1..]);
      a := b + 1;
      RangeOfSuffix(s, 1, b);
      assert s[1..][b..] == s[a..];
    } else {
      a := 0;
    }
  }

  lemma {:induction false} DropBlanksRightSplit(s: string) returns (b: nat)
    ensures b <= |s| && DropBlanksRight(s) == s[..b] && BlankRange(s, b, |s|)
    ensures b > 0 ==> !Blank(s[b - 1])
  {
    if s != "" && Blank(s[|s| - 1]) {
      var t := s[..|s| - 1];
      b := DropBlanksRightSplit(t);
      RangeOfPrefix(s, |s| - 1, b);
      assert t[..b] == s[..b];
    } else {
      b := |s|;
    }
  }

  /** There is one way only to drop the blanks of either end. */
  lemma DropBlanksIs(s: string, i: nat)
    requires i < |s| && BlankRange(s, 0, i) && !Blank(s[i])
    ensures DropBlanks(s) == s[i..]
  {
    hide DropBlanks;
    var a := DropBlanksSplit(s);
    assert a == i;
  }

  lemma DropBlanksRightIs(s: string, j: nat)
    requires j < |s| && BlankRange(s, j + 1, |s|) && !Blank(s[j])
    ensures DropBlanksRight(s) == s[..j + 1]
  {
    hide DropBlanksRight;
    var b := DropBlanksRightSplit(s);
    assert b == j + 1;
  }

  lemma NothingToDrop(s: string)
    ensures s == "" || !Blank(s[0]) ==> DropBlanks(s) == s
    ensures s == "" || !Blank(s[|s| - 1]) ==> DropBlanksRight(s) == s
  {
  }

  /** The comment marker at position a, and blanks up to position i or from position j on. */
  ghost predicate MarkedInFront(s: string, i: nat, a: nat)
    requires i <= |s|
  {
    a + 4 <= i && BlankRange(s, 0, a) && s[a..a + 4] == COMMENT_OPEN && BlankRange(s, a + 4, i)
  }

  ghost predicate MarkedBehind(s: string, j: nat, e: nat)
    requires j < |s|
  {
    j < e <= |s| - 3 && BlankRange(s, j + 1, e) && s[e..e + 3] == COMMENT_CLOSE && BlankRange(s, e + 3, |s|)
  }

  lemma MarkerInFront(s: string, i: nat, a: nat)
    requires i <= |s|
    ensures MarkerAt(s[..i], COMMENT_OPEN, a) <==> MarkedInFront(s, i, a)
  {
    if a + 4 <= i {
      var margin := s[..i];
      assert margin[..a] == s[0..a] && margin[a..a + 4] == s[a..a + 4] && margin[a + 4..] == s[a + 4..i];
      hide AllBlank, BlankRange;
      RangeIsBlank(s, 0, a);
      RangeIsBlank(s, a + 4, i);
    }
  }

  lemma MarkerBehind(s: string, j: nat, k: nat)
    requires j < |s|
    ensures MarkerAt(s[j + 1..], COMMENT_CLOSE, k) <==> MarkedBehind(s, j, j + 1 + k)
  {
    var e := j + 1 + k;
    if e + 3 <= |s| {
      var margin := s[j + 1..];
      assert margin[..k] == s[j + 1..e] && margin[k..k + 3] == s[e..e + 3] && margin[k + 3..] == s[e + 3..|s|];
      hide AllBlank, BlankRange;
      RangeIsBlank(s, j + 1, e);
      RangeIsBlank(s, e + 3, |s|);
    }
  }

  lemma HeadFound(s: string) returns (i: nat)
    requires Head(s) != "" && Opener(Head(s)[0])
    ensures Opens(s, i)
  {
    hide DropBlanks, AllBlank, BlankRange, MarkerAt;
    var a := DropBlanksSplit(s);
    if COMMENT_OPEN <= s[a..] {
      var rest := s[a + 4..];
      assert s[a..][4..] == rest && s[a..][..4] == s[a..a + 4];
      var b := DropBlanksSplit(rest);
      i := a + 4 + b;
      RangeOfSuffix(s, a + 4, b);
      DropDrop(s, a + 4, b);
      MarkerInFront(s, i, a);
    } else {
      i := a;
      NothingToDrop(s[a..]);
      RangeIsBlank(s, 0, a);
      assert s[0..a] == s[..a];
    }
  }

  lemma HeadFinds(s: string, i: nat)
    requires Opens(s, i)
    ensures Head(s) == s[i..]
  {
    hide DropBlanks, AllBlank, BlankRange, MarkerAt;
    if AllBlank(s[..i]) {
      assert s[0..i] == s[..i];
      RangeIsBlank(s, 0, i);
      DropBlanksIs(s, i);
      assert s[i..][0] == s[i];
      NothingToDrop(s[i..]);
    } else {
      var a: nat :| MarkerAt(s[..i], COMMENT_OPEN, a);
      MarkerInFront(s, i, a);
      HeadBehindMarker(s, i, a);
    }
  }

  lemma HeadBehindMarker(s: string, i: nat, a: nat)
    requires i < |s| && Opener(s[i]) && MarkedInFront(s, i, a)
    ensures Head(s) == s[i..]
  {
    hide DropBlanks, BlankRange;
    var rest := s[a + 4..];
    assert s[a] == s[a..a + 4][0] == '<';
    DropBlanksIs(s, a);
    assert s[a..][..4] == s[a..a + 4] && s[a..][4..] == rest;
    RangeOfSuffix(s, a + 4, i - (a + 4));
    assert rest[i - (a + 4)] == s[i];
    DropBlanksIs(rest, i - (a + 4));
    DropDrop(s, a + 4, i - (a + 4));
  }

  lemma DropDrop(s: string, m: nat, n: nat)
    requires m + n <= |s|
    ensures s[m..][n..] == s[m + n..]
  {
  }

  lemma TakeTake(s: string, m: nat, n: nat)
    requires n <= m <= |s|
    ensures s[..m][..n] == s[..n]
  {
  }

  lemma TailFound(s: string) returns (j: nat)
    requires Tail(s) != "" && Closer(Tail(s)[|Tail(s)| - 1])
    ensures Closes(s, j)
  {
    hide DropBlanksRight, AllBlank, BlankRange, MarkerAt;
    var b := DropBlanksRightSplit(s);
    if 3 <= b && s[..b][b - 3..] == COMMENT_CLOSE {
      var rest := s[..b - 3];
      TakeTake(s, b, b - 3);
      assert s[..b][b - 3..] == s[b - 3..b];
      var c := DropBlanksRightSplit(rest);
      j := c - 1;
      TakeTake(s, b - 3, c);
      RangeOfPrefix(s, b - 3, c);
      MarkerBehind(s, j, b - 3 - c);
    } else {
      NothingToDrop(s[..b]);
      j := b - 1;
      RangeIsBlank(s, b, |s|);
      assert s[b..|s|] == s[b..];
    }
  }

  lemma TailFinds(s: string, j: nat)
    requires Closes(s, j)
    ensures Tail(s) == s[..j + 1]
  {
    hide DropBlanksRight, AllBlank, BlankRange, MarkerAt;
    if AllBlank(s[j + 1..]) {
      assert s[j + 1..|s|] == s[j + 1..];
      RangeIsBlank(s, j + 1, |s|);
      DropBlanksRightIs(s, j);
      assert s[..j + 1][j] == s[j];
      NothingToDrop(s[..j + 1]);
    } else {
      var k: nat :| MarkerAt(s[j + 1..], COMMENT_CLOSE, k);
      MarkerBehind(s, j, k);
      TailBeforeMarker(s, j, j + 1 + k);
    }
  }

  lemma TailBeforeMarker(s: string, j: nat, e: nat)
    requires j < |s| && Closer(s[j]) && MarkedBehind(s, j, e)
    ensures Tail(s) == s[..j + 1]
  {
    hide DropBlanksRight, BlankRange;
    var rest := s[..e];
    assert s[e + 2] == s[e..e + 3][2] == '>';
    DropBlanksRightIs(s, e + 2);
    assert s[..e + 3][e..] == s[e..e + 3];
    TakeTake(s, e + 3, e);
    RangeOfPrefix(s, e, j + 1);
    DropBlanksRightIs(rest, j);
    TakeTake(s, e, j + 1);
  }

  lemma MarginChars(s: string, marker: string, k: nat)
    requires Margin(s, marker) && k < |s|
    ensures Blank(s[k]) || s[k] in marker
  {
    if !AllBlank(s) {
      var a: nat :| MarkerAt(s, marker, a);
      if k < a {
        assert s[..a][k] == s[k];
      } else if k < a + |marker| {
        assert s[a..a + |marker|][k - a] == s[k];
      } else {
        assert s[a + |marker|..][k - (a + |marker|)] == s[k];
      }
    }
  }

  /** Neither blanks nor the markers contain a bracket, so the opening one comes first. */
  lemma OpenBeforeClose(s: string, i: nat, j: nat)
    requires Opens(s, i) && Closes(s, j)
    ensures i < j
  {
    forall k | 0 <= k < i
      ensures Blank(s[k]) || s[k] in COMMENT_OPEN
    {
      MarginChars(s[..i], COMMENT_OPEN, k);
    }
  }

  /** The scan decides the pattern, on every line. */
  lemma ScanDecidesPattern(s: string)
    requires NoNewline(s)
    ensures IsHeadline(s) <==> Headline(s)
  {
    hide Head, Tail, Margin;
    if IsHeadline(s) {
      var i := HeadFound(s);
      var j := TailFound(s);
      OpenBeforeClose(s, i, j);
      BracketsAt(s, i, j);
      assert NoNewline(s[i + 1..j]);
    }
    if Headline(s) {
      var i: nat, j: nat :| i < j && Opens(s, i) && Closes(s, j) && NoNewline(s[i + 1..j]);
      HeadFinds(s, i);
      TailFinds(s, j);
      BracketsAt(s, i, j);
    }
  }

  lemma BracketsAt(s: string, i: nat, j: nat)
    requires Opens(s, i) && Closes(s, j)
    ensures i < |s| && Opener(s[i..][0]) && j < |s| && Closer(s[..j + 1][j])
  {
  }

  /** Nothing the pattern matches between its anchors contains a newline. */
  lemma HeadlineIsOneLine(s: string)
    requires Headline(s)
    ensures NoNewline(s) && |s| >= 2
  {
    var i: nat, j: nat :| i < j && Opens(s, i) && Closes(s, j) && NoNewline(s[i + 1..j]);
    forall k | 0 <= k < |s|
      ensures s[k] != '\n'
    {
      if k < i {
        MarginChars(s[..i], COMMENT_OPEN, k);
      } else if i < k < j {
        assert s[i + 1..j][k - (i + 1)] == s[k];
      } else if j < k {
        MarginChars(s[j + 1..], COMMENT_CLOSE, k - (j + 1));
      }
    }
  }
}
