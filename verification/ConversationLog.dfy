/**
 The append-only conversation log: a file of lines, each one encoded entry, whose indexes are derived
 from the file itself. Appending may fail before it writes and may tear a line; a file outlives the
 session that writes it. The encoding of entries is a parameter.
 */
module ConversationLog {
  import opened Options
  import opened HeadlinePattern
  import opened HeadlineText
  import opened HeadlineNormalForm
  import opened HeadlineFilter
  import opened Selections

  datatype Entry = Entry(ts: string, role: string, content: string, model: string, index: nat, sessionID: string)

  datatype Codec = Codec(enc: Entry -> string, dec: string -> Option<Entry>)

  /** An object in JSON text without insignificant white space (section 4 of RFC 8259). */
  ghost predicate OneObject(line: string) {
    |line| >= 2 && line[0] == '{' && line[|line| - 1] == '}' && NoNewline(line)
  }

  ghost predicate GoodCodec(codec: Codec) {
    forall e :: OneObject(codec.enc(e)) && codec.dec(codec.enc(e)) == Some(e)
  }

  datatype Fault = ReadFailed | OpenFailed | WriteFailed | EngineFailed(message: string)

  /** How the file system takes an append. */
  datatype Disk = Fine | Unreadable | Unopenable | Torn(n: nat)

  function Bytes(log: Option<string>): string {
    if log.Some? then log.value else ""
  }

  function Newlines(s: string): nat {
    if s == "" then 0 else (if s[0] == '\n' then 1 else 0) + Newlines(s[1..])
  }

  /** `appendLog`: the index is one more than the newlines in the file. */
  function Append(codec: Codec, log: Option<string>, draft: Entry, disk: Disk): (Option<string>, Result<nat, Fault>) {
    var e := draft.(index := Newlines(Bytes(log)) + 1);
    var line := codec.enc(e) + "\n";
    match disk
    case Unreadable => (log, Err(ReadFailed))
    case Unopenable => (log, Err(OpenFailed))
    case Torn(n) => (Some(Bytes(log) + if n < |line| then line[..n] else line), Err(WriteFailed))
    case Fine => (Some(Bytes(log) + line), Ok(e.index))
  }

  // --- What an index names --------------------------------------------------------------------------

  lemma {:induction false} NewlinesAreLines(s: string)
    ensures Newlines(s) == |Complete(s)| == |Lines(s)| - 1
  {
    if s != "" {
      NewlinesAreLines(s[1..]);
    }
  }

  lemma CompletedLine(content: string)
    requires NoNewline(content)
    ensures Complete(content + "\n") == [content] && Remainder(content + "\n") == ""
  {
    FirstCompleted(content, "");
    NothingComplete("");
    assert content + "\n" + "" == content + "\n";
  }

  /** Complete lines stay as they are and where they are, whatever is appended. */
  lemma LinesStay(s: string, more: string)
    ensures Complete(s) <= Complete(s + more)
  {
    CompleteAppend(s, more);
  }

  /**
   Whatever is in the file, even the beginning of a torn line: an append that succeeds returns the
   number of the line it completed, and that line ends in the new entry.
   */
  lemma AppendReturnsLineNumber(codec: Codec, log: Option<string>, draft: Entry, disk: Disk)
    requires GoodCodec(codec)
    ensures var (after, r) := Append(codec, log, draft, disk);
            && Bytes(log) <= Bytes(after)
            && (r.Ok? <==> disk.Fine?)
            && (!disk.Torn? && !disk.Fine? ==> after == log)
            && (disk.Torn? ==>
                  Bytes(after) <= Bytes(log) + (codec.enc(draft.(index := |Complete(Bytes(log))| + 1)) + "\n"))
            && (r.Ok? ==>
                  && r.value == |Complete(Bytes(log))| + 1
                  && Complete(Bytes(after)) == Complete(Bytes(log))
                                               + [Remainder(Bytes(log)) + codec.enc(draft.(index := r.value))]
                  && Remainder(Bytes(after)) == "")
  {
    var before := Bytes(log);
    NewlinesAreLines(before);
    hide Lines, Newlines;
    if disk.Fine? {
      var line := codec.enc(draft.(index := Newlines(before) + 1));
      assert OneObject(line);
      CompleteAppend(before, line + "\n");
      LinesHaveNoNewline(before);
      var content := Remainder(before) + line;
      assert NoNewline(content);
      CompletedLine(content);
      assert Remainder(before) + (line + "\n") == content + "\n";
    }
  }

  /** Two appends to a file that ends with a complete line. */
  lemma TwoAppends(codec: Codec, log: Option<string>, first: Entry, second: Entry)
    requires GoodCodec(codec) && Remainder(Bytes(log)) == ""
    ensures var n := |Complete(Bytes(log))|;
            var (mid, r) := Append(codec, log, first, Fine);
            var after := Append(codec, mid, second, Fine).0;
            && r == Ok(n + 1)
            && Complete(Bytes(after)) ==
               Complete(Bytes(log)) + [codec.enc(first.(index := n + 1)), codec.enc(second.(index := n + 2))]
            && Remainder(Bytes(after)) == ""
  {
    AppendReturnsLineNumber(codec, log, first, Fine);
    var mid := Append(codec, log, first, Fine).0;
    AppendReturnsLineNumber(codec, mid, second, Fine);
    hide GoodCodec, Append, Complete, Remainder;
    var n := |Complete(Bytes(log))|;
    NothingBefore(codec.enc(first.(index := n + 1)));
    NothingBefore(codec.enc(second.(index := n + 2)));
  }

  lemma NothingBefore(line: string)
    ensures "" + line == line
  {
  }

  // --- A log of whole entries ---------------------------------------------------------------------

  function Written(codec: Codec, entries: seq<Entry>): string {
    if entries == [] then ""
    else Written(codec, entries[..|entries| - 1]) + (codec.enc(entries[|entries| - 1]) + "\n")
  }

  ghost predicate Holds(codec: Codec, log: Option<string>, entries: seq<Entry>) {
    Bytes(log) == Written(codec, entries)
  }

  /** The k-th line carries index k. */
  ghost predicate Continuous(entries: seq<Entry>) {
    forall k :: 0 <= k < |entries| ==> entries[k].index == k + 1
  }

  function Encoded(codec: Codec, entries: seq<Entry>): (lines: seq<string>)
    ensures |lines| == |entries| && forall k :: 0 <= k < |lines| ==> lines[k] == codec.enc(entries[k])
  {
    seq(|entries|, k requires 0 <= k < |entries| => codec.enc(entries[k]))
  }

  lemma {:induction false} WrittenLines(codec: Codec, entries: seq<Entry>)
    requires GoodCodec(codec)
    ensures Complete(Written(codec, entries)) == Encoded(codec, entries)
    ensures Remainder(Written(codec, entries)) == "" && Newlines(Written(codec, entries)) == |entries|
    decreases |entries|
  {
    NewlinesAreLines(Written(codec, entries));
    if entries == [] {
      NothingComplete("");
    } else {
      var k := |entries| - 1;
      WrittenLines(codec, entries[..k]);
      var line := codec.enc(entries[k]);
      assert OneObject(line);
      CompleteAppend(Written(codec, entries[..k]), line + "\n");
      CompletedLine(line);
      assert "" + (line + "\n") == line + "\n";
      assert Encoded(codec, entries) == Encoded(codec, entries[..k]) + [line];
    }
  }

  /** An append that does not tear its line adds one entry with the next index, or nothing. */
  lemma AppendHolds(codec: Codec, log: Option<string>, entries: seq<Entry>, draft: Entry, disk: Disk)
    requires GoodCodec(codec) && Holds(codec, log, entries) && !disk.Torn?
    ensures var (after, r) := Append(codec, log, draft, disk);
            && Holds(codec, after, entries + if disk.Fine? then [draft.(index := |entries| + 1)] else [])
            && (r.Ok? <==> disk.Fine?)
            && (disk.Fine? ==> r == Ok(|entries| + 1))
  {
    hide Newlines, Lines, GoodCodec, Complete, Remainder, Written;
    WrittenLines(codec, entries);
    WrittenMore(codec, entries, draft.(index := |entries| + 1));
    assert entries + [] == entries;
  }

  lemma WrittenMore(codec: Codec, entries: seq<Entry>, e: Entry)
    ensures Written(codec, entries + [e]) == Written(codec, entries) + (codec.enc(e) + "\n")
  {
    assert (entries + [e])[..|entries|] == entries;
  }

  // --- Reading it back -----------------------------------------------------------------------------

  function LastN<T>(s: seq<T>, n: int): seq<T> {
    if 0 < n < |s| then s[|s| - n..] else s
  }

  predicate IsOf(codec: Codec, line: string, sessionID: string) {
    codec.dec(line).Some? && codec.dec(line).value.sessionID == sessionID
  }

  function Matching(codec: Codec, lines: seq<string>, sessionID: string): (matching: seq<string>)
    ensures |matching| <= |lines|
  {
    if lines == [] then []
    else
      var k := |lines| - 1;
      Matching(codec, lines[..k], sessionID) + if IsOf(codec, lines[k], sessionID) then [lines[k]] else []
  }

  function Decoded(codec: Codec, lines: seq<string>): seq<Entry> {
    if lines == [] then []
    else
      var k := |lines| - 1;
      Decoded(codec, lines[..k]) + if codec.dec(lines[k]).Some? then [codec.dec(lines[k]).value] else []
  }

  /** What `History` makes of a file, whatever is in it. */
  function HistoryOf(codec: Codec, log: Option<string>, n: int, sessionID: string): seq<Entry> {
    var lines := Lines(Trim(Bytes(log)));
    if lines == [""] then []
    else Decoded(codec, LastN(if sessionID == "" then lines else Matching(codec, lines, sessionID), n))
  }

  function OfSession(entries: seq<Entry>, sessionID: string): seq<Entry> {
    if entries == [] then []
    else
      var k := |entries| - 1;
      OfSession(entries[..k], sessionID) + if entries[k].sessionID == sessionID then [entries[k]] else []
  }

  /** The positions of a session's entries; without a session id, of all. */
  function OfSessionAt(entries: seq<Entry>, sessionID: string): set<nat> {
    set k: nat | k < |entries| && (sessionID == "" || entries[k].sessionID == sessionID)
  }

  function Wanted(entries: seq<Entry>, sessionID: string): seq<Entry> {
    if sessionID == "" then entries else OfSession(entries, sessionID)
  }

  lemma {:induction false} WantedArePicked(entries: seq<Entry>, sessionID: string)
    ensures PicksAll(Wanted(entries, sessionID), entries, OfSessionAt(entries, sessionID))
    decreases |entries|
  {
    hide PicksAll;
    if entries == [] {
      PicksNothing<Entry>(OfSessionAt(entries, sessionID));
    } else {
      var k := |entries| - 1;
      var before, last := entries[..k], entries[k];
      WantedArePicked(before, sessionID);
      PicksMore(Wanted(before, sessionID), before, OfSessionAt(before, sessionID),
                last, OfSessionAt(entries, sessionID));
      assert entries == before + [last];
      WantedMore(before, last, sessionID);
    }
  }

  lemma WantedMore(before: seq<Entry>, last: Entry, sessionID: string)
    ensures Wanted(before + [last], sessionID) ==
            if sessionID == "" || last.sessionID == sessionID then Wanted(before, sessionID) + [last]
            else Wanted(before, sessionID)
  {
    assert (before + [last])[..|before|] == before;
  }

  lemma LastArePicked<T>(picked: seq<T>, all: seq<T>, wanted: set<nat>, n: int)
    requires PicksAll(picked, all, wanted)
    ensures PicksLast(LastN(picked, n), all, wanted, n)
  {
    var from := if 0 < n < |picked| then |picked| - n else 0;
    assert LastN(picked, n) == picked[from..];
    EndOfPick(picked, all, wanted, from, n);
  }

  lemma {:induction false} JoinLast(lines: seq<string>, last: string)
    requires lines != []
    ensures Join(lines + [last]) == Join(lines) + "\n" + last
    decreases |lines|
  {
    assert (lines + [last])[1..] == lines[1..] + [last];
    if |lines| == 1 {
      assert [last] == lines[1..] + [last];
      assert lines[0] + "\n" + Join([last]) == lines[0] + "\n" + last;
    } else {
      JoinLast(lines[1..], last);
      assert lines[0] + "\n" + (Join(lines[1..]) + "\n" + last) == lines[0] + "\n" + Join(lines[1..]) + "\n" + last;
    }
  }

  lemma {:induction false} WrittenIsJoined(codec: Codec, entries: seq<Entry>)
    requires GoodCodec(codec) && entries != []
    ensures Written(codec, entries) == Join(Encoded(codec, entries)) + "\n"
    ensures var joined := Join(Encoded(codec, entries));
            joined != "" && joined[0] == '{' && joined[|joined| - 1] == '}'
    decreases |entries|
  {
    var k := |entries| - 1;
    var line := codec.enc(entries[k]);
    assert OneObject(line);
    if k == 0 {
      assert Encoded(codec, entries) == [line];
      assert entries[..0] == [] && "" + (line + "\n") == line + "\n";
    } else {
      WrittenIsJoined(codec, entries[..k]);
      var before := Encoded(codec, entries[..k]);
      JoinLast(before, line);
      assert Encoded(codec, entries) == before + [line];
      Assoc(Join(before) + "\n", line, "\n");
    }
  }

  lemma TrimmedLog(joined: string)
    requires joined != "" && joined[0] == '{' && joined[|joined| - 1] == '}'
    ensures Trim(joined + "\n") == joined
  {
    assert TrimLeft(joined + "\n") == joined + "\n";
    assert (joined + "\n")[..|joined|] == joined;
    assert TrimRight(joined) == joined;
  }

  lemma LogLines(codec: Codec, entries: seq<Entry>)
    requires GoodCodec(codec)
    ensures Lines(Trim(Written(codec, entries))) == if entries == [] then [""] else Encoded(codec, entries)
  {
    if entries == [] {
      NothingToTrim();
      LinesOfOne("");
    } else {
      var lines := Encoded(codec, entries);
      WrittenIsJoined(codec, entries);
      TrimmedLog(Join(lines));
      assert forall k :: 0 <= k < |entries| ==> OneObject(codec.enc(entries[k]));
      LinesOfJoin(lines);
    }
  }

  lemma {:induction false} MatchingEncoded(codec: Codec, entries: seq<Entry>, sessionID: string)
    requires GoodCodec(codec)
    ensures Matching(codec, Encoded(codec, entries), sessionID) == Encoded(codec, OfSession(entries, sessionID))
    decreases |entries|
  {
    if entries != [] {
      var k := |entries| - 1;
      MatchingEncoded(codec, entries[..k], sessionID);
      assert Encoded(codec, entries)[..k] == Encoded(codec, entries[..k]);
      var before := OfSession(entries[..k], sessionID);
      assert Encoded(codec, before + [entries[k]]) == Encoded(codec, before) + [codec.enc(entries[k])];
      assert before + [] == before;
    }
  }

  lemma {:induction false} DecodedEncoded(codec: Codec, entries: seq<Entry>)
    requires GoodCodec(codec)
    ensures Decoded(codec, Encoded(codec, entries)) == entries
    decreases |entries|
  {
    if entries != [] {
      var k := |entries| - 1;
      DecodedEncoded(codec, entries[..k]);
      assert Encoded(codec, entries)[..k] == Encoded(codec, entries[..k]);
      assert entries == entries[..k] + [entries[k]];
    }
  }

  lemma LastEncoded(codec: Codec, entries: seq<Entry>, n: int)
    ensures LastN(Encoded(codec, entries), n) == Encoded(codec, LastN(entries, n))
  {
  }

  /** `History` reads back the last n entries of a session, or of all sessions, in order. */
  lemma {:induction false} HistoryReadsBack(
    codec: Codec, log: Option<string>, entries: seq<Entry>, n: int, sessionID: string)
    requires GoodCodec(codec) && Holds(codec, log, entries)
    ensures HistoryOf(codec, log, n, sessionID) ==
            LastN(Wanted(entries, sessionID), n)
    ensures PicksLast(HistoryOf(codec, log, n, sessionID), entries, OfSessionAt(entries, sessionID), n)
  {
    HistoryIsLastN(codec, log, entries, n, sessionID);
    hide *;
    WantedArePicked(entries, sessionID);
    LastArePicked(Wanted(entries, sessionID), entries, OfSessionAt(entries, sessionID), n);
  }

  lemma HistoryIsLastN(codec: Codec, log: Option<string>, entries: seq<Entry>, n: int, sessionID: string)
    requires GoodCodec(codec) && Holds(codec, log, entries)
    ensures HistoryOf(codec, log, n, sessionID) == LastN(Wanted(entries, sessionID), n)
  {
    LogLines(codec, entries);
    if entries != [] {
      assert OneObject(codec.enc(entries[0]));
      hide GoodCodec, Written, Lines, Trim, Matching, Decoded, OfSession, LastN;
      MatchingEncoded(codec, entries, sessionID);
      var wanted := Wanted(entries, sessionID);
      LastEncoded(codec, wanted, n);
      DecodedEncoded(codec, LastN(wanted, n));
    }
  }

  // --- Reading any file -----------------------------------------------------------------------------

  /** The positions of the lines that decode to an entry of the session; without a session id, of all. */
  function LinesOfSessionAt(codec: Codec, lines: seq<string>, sessionID: string): set<nat> {
    set k: nat | k < |lines| && (sessionID == "" || IsOf(codec, lines[k], sessionID))
  }

  function DecodableAt(codec: Codec, lines: seq<string>): set<nat> {
    set k: nat | k < |lines| && codec.dec(lines[k]).Some?
  }

  /** The decodings of those of some lines that decode, in their order. */
  ghost predicate AreDecoded(codec: Codec, lines: seq<string>, entries: seq<Entry>) {
    exists good :: PicksAll(good, lines, DecodableAt(codec, lines)) && |entries| == |good| &&
                   forall k :: 0 <= k < |good| ==> codec.dec(good[k]) == Some(entries[k])
  }

  /** The last n lines that belong to the session, decoded as far as they can be. */
  ghost predicate HistoryPicks(codec: Codec, log: Option<string>, n: int, sessionID: string, entries: seq<Entry>) {
    var lines := Lines(Trim(Bytes(log)));
    if lines == [""] then entries == []
    else exists kept :: PicksLast(kept, lines, LinesOfSessionAt(codec, lines, sessionID), n)
                        && AreDecoded(codec, kept, entries)
  }

  function Belonging(codec: Codec, lines: seq<string>, sessionID: string): seq<string> {
    if sessionID == "" then lines else Matching(codec, lines, sessionID)
  }

  lemma BelongingMore(codec: Codec, before: seq<string>, last: string, sessionID: string)
    ensures Belonging(codec, before + [last], sessionID) ==
            if sessionID == "" || IsOf(codec, last, sessionID) then Belonging(codec, before, sessionID) + [last]
            else Belonging(codec, before, sessionID)
  {
    assert (before + [last])[..|before|] == before;
  }

  lemma {:induction false} BelongingArePicked(codec: Codec, lines: seq<string>, sessionID: string)
    ensures PicksAll(Belonging(codec, lines, sessionID), lines, LinesOfSessionAt(codec, lines, sessionID))
    decreases |lines|
  {
    hide PicksAll;
    if lines == [] {
      PicksNothing<string>(LinesOfSessionAt(codec, lines, sessionID));
    } else {
      var k := |lines| - 1;
      var before, last := lines[..k], lines[k];
      BelongingArePicked(codec, before, sessionID);
      PicksMore(Belonging(codec, before, sessionID), before, LinesOfSessionAt(codec, before, sessionID),
                last, LinesOfSessionAt(codec, lines, sessionID));
      assert lines == before + [last];
      BelongingMore(codec, before, last, sessionID);
    }
  }

  lemma DecodedMore(codec: Codec, before: seq<string>, last: string)
    ensures Decoded(codec, before + [last]) ==
            if codec.dec(last).Some? then Decoded(codec, before) + [codec.dec(last).value] else Decoded(codec, before)
  {
    assert (before + [last])[..|before|] == before;
  }

  lemma AreDecodedMore(codec: Codec, before: seq<string>, last: string, entries: seq<Entry>)
    requires AreDecoded(codec, before, entries)
    ensures AreDecoded(codec, before + [last],
                       if codec.dec(last).Some? then entries + [codec.dec(last).value] else entries)
  {
    hide PicksAll;
    var good :| PicksAll(good, before, DecodableAt(codec, before)) && |entries| == |good| &&
                forall k :: 0 <= k < |good| ==> codec.dec(good[k]) == Some(entries[k]);
    var lines := before + [last];
    assert lines[|before|] == last;
    PicksMore(good, before, DecodableAt(codec, before), last, DecodableAt(codec, lines));
    var more := if codec.dec(last).Some? then good + [last] else good;
    assert PicksAll(more, lines, DecodableAt(codec, lines));
  }

  lemma NothingDecoded(codec: Codec)
    ensures Decoded(codec, []) == [] && AreDecoded(codec, [], [])
  {
    hide PicksAll;
    PicksNothing<string>(DecodableAt(codec, []));
    var good: seq<string> := [];
    assert PicksAll(good, [], DecodableAt(codec, [])) && |good| == 0;
  }

  lemma {:induction false} DecodedAreDecodings(codec: Codec, lines: seq<string>)
    ensures AreDecoded(codec, lines, Decoded(codec, lines))
    decreases |lines|
  {
    hide *;
    if lines == [] {
      NothingDecoded(codec);
    } else {
      var k := |lines| - 1;
      DecodedAreDecodings(codec, lines[..k]);
      AreDecodedMore(codec, lines[..k], lines[k], Decoded(codec, lines[..k]));
      DecodedMore(codec, lines[..k], lines[k]);
      assert lines == lines[..k] + [lines[k]];
    }
  }

  /** `History` on any file, torn lines included. */
  lemma {:induction false} HistoryPicksLast(codec: Codec, log: Option<string>, n: int, sessionID: string)
    ensures HistoryPicks(codec, log, n, sessionID, HistoryOf(codec, log, n, sessionID))
  {
    var lines := Lines(Trim(Bytes(log)));
    if lines != [""] {
      hide Lines, Trim, LastN, PicksLast, Matching, Decoded, AreDecoded;
      var belonging := Belonging(codec, lines, sessionID);
      BelongingArePicked(codec, lines, sessionID);
      LastArePicked(belonging, lines, LinesOfSessionAt(codec, lines, sessionID), n);
      DecodedAreDecodings(codec, LastN(belonging, n));
    }
  }
}
