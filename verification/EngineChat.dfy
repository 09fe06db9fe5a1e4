/**
 One chat with the kernel: the updates it sends while a prompt runs are shown through callbacks as they
 come, message text line by line without its headlines, and the reply is the stripped text of them all.
 */
module EngineChat {
  import opened Options
  import opened HeadlinePattern
  import opened HeadlineText
  import opened HeadlineNormalForm
  import opened HeadlineFilter
  import opened HeadlineAgreement
  import opened Selections

  /** An update of the session. The text is missing when the content has not the expected shape. */
  datatype Update =
    | Message(text: Option<string>)
    | Thought(text: Option<string>)
    | Tool(body: string)
    | Usage(body: string)
    | Other

  /** Which of the callbacks the caller has set. */
  datatype Callbacks = Callbacks(onDelta: bool, onThought: bool, onTool: bool, onUsage: bool)

  datatype Event =
    | Delta(text: string)
    | Mused(text: string)
    | ToolCall(body: string)
    | Used(body: string)

  const NO_TEXT := "（QwenPaw 未产生文本回复，请查看工具调用/工作区状态）"

  function MessageText(update: Update): string {
    if update.Message? && update.text.Some? then update.text.value else ""
  }

  function Text(updates: seq<Update>): string {
    if updates == [] then "" else Text(updates[..|updates| - 1]) + MessageText(updates[|updates| - 1])
  }

  /** The texts the kernel sent, update by update. */
  function MessageTexts(updates: seq<Update>): seq<string> {
    if updates == [] then []
    else
      MessageTexts(updates[..|updates| - 1]) +
      match updates[|updates| - 1]
      case Message(Some(text)) => [text]
      case _ => []
  }

  /** However a message is cut into updates, its text is the pieces as they were sent. */
  lemma {:induction false} MessageOfPieces(pieces: seq<string>, updates: seq<Update>)
    requires |updates| == |pieces| && forall k :: 0 <= k < |pieces| ==> updates[k] == Message(Some(pieces[k]))
    ensures MessageTexts(updates) == pieces
    decreases |pieces|
  {
    if pieces != [] {
      var k := |pieces| - 1;
      MessageOfPieces(pieces[..k], updates[..k]);
      assert pieces == pieces[..k] + [pieces[k]];
    }
  }

  lemma {:induction false} MessageTextsJoin(a: seq<Update>, b: seq<Update>)
    ensures MessageTexts(a + b) == MessageTexts(a) + MessageTexts(b)
    decreases |b|
  {
    if b == [] {
      assert a + b == a;
    } else {
      assert (a + b)[..|a + b| - 1] == a + b[..|b| - 1];
      MessageTextsJoin(a, b[..|b| - 1]);
    }
  }

  /** Thoughts, tools, usage and misshapen updates add nothing to it, wherever they come. */
  lemma {:induction false} OthersAddNoText(a: seq<Update>, u: Update, b: seq<Update>)
    requires !u.Message? || u.text.None?
    ensures MessageTexts(a + [u] + b) == MessageTexts(a + b)
  {
    assert [u][..0] == [];
    MessageTextsJoin(a + [u], b);
    MessageTextsJoin(a, [u]);
    MessageTextsJoin(a, b);
  }

  lemma {:induction false} TextIsWhatWasSent(updates: seq<Update>)
    ensures Text(updates) == Concat(MessageTexts(updates))
    decreases |updates|
  {
    if updates != [] {
      var k := |updates| - 1;
      TextIsWhatWasSent(updates[..k]);
      var before := MessageTexts(updates[..k]);
      var piece := MessageText(updates[k]);
      assert (before + [piece])[..|before|] == before;
      assert before + [] == before && Concat(before) + "" == Concat(before);
    }
  }

  function Deltas(texts: seq<string>): (events: seq<Event>)
    ensures |events| == |texts|
  {
    seq(|texts|, k requires 0 <= k < |texts| => Delta(texts[k]))
  }

  /** The event an update causes by itself, if it is no message. */
  function Aside(update: Update, cb: Callbacks): seq<Event> {
    match update
    case Thought(Some(text)) => if cb.onThought then [Mused(text)] else []
    case Tool(body) => if cb.onTool then [ToolCall(body)] else []
    case Usage(body) => if cb.onUsage then [Used(body)] else []
    case _ => []
  }

  /** The events of one update, when the message text before it is `sofar`: the lines it completes. */
  function Shown(sofar: string, update: Update, cb: Callbacks): seq<Event> {
    if update.Message? then
      if cb.onDelta then Deltas(Kept(Complete(Remainder(sofar) + MessageText(update)))) else []
    else Aside(update, cb)
  }

  function Events(updates: seq<Update>, cb: Callbacks): seq<Event> {
    if updates == [] then []
    else
      var before := updates[..|updates| - 1];
      Events(before, cb) + Shown(Text(before), updates[|updates| - 1], cb)
  }

  /** All events of a chat, with those of the final flush. */
  function AllEvents(updates: seq<Update>, cb: Callbacks): seq<Event> {
    Events(updates, cb) + if cb.onDelta then Deltas(KeptRest(Remainder(Text(updates)))) else []
  }

  /** The texts of the deltas among some events, and the other events. */
  function DeltaTexts(events: seq<Event>): seq<string> {
    if events == [] then []
    else (if events[0].Delta? then [events[0].text] else []) + DeltaTexts(events[1..])
  }

  function Asides(events: seq<Event>): seq<Event> {
    if events == [] then [] else (if events[0].Delta? then [] else [events[0]]) + Asides(events[1..])
  }

  function AllAsides(updates: seq<Update>, cb: Callbacks): seq<Event> {
    if updates == [] then []
    else AllAsides(updates[..|updates| - 1], cb) + Aside(updates[|updates| - 1], cb)
  }

  lemma {:induction false} DeltaTextsJoin(a: seq<Event>, b: seq<Event>)
    ensures DeltaTexts(a + b) == DeltaTexts(a) + DeltaTexts(b)
    decreases |a|
  {
    if a == [] {
      assert a + b == b;
    } else {
      assert (a + b)[1..] == a[1..] + b;
      DeltaTextsJoin(a[1..], b);
    }
  }

  lemma {:induction false} AsidesJoin(a: seq<Event>, b: seq<Event>)
    ensures Asides(a + b) == Asides(a) + Asides(b)
    decreases |a|
  {
    if a == [] {
      assert a + b == b;
    } else {
      assert (a + b)[1..] == a[1..] + b;
      AsidesJoin(a[1..], b);
    }
  }

  lemma ProjectionsJoin(a: seq<Event>, b: seq<Event>)
    ensures DeltaTexts(a + b) == DeltaTexts(a) + DeltaTexts(b)
    ensures Asides(a + b) == Asides(a) + Asides(b)
  {
    DeltaTextsJoin(a, b);
    AsidesJoin(a, b);
  }

  lemma {:induction false} ProjectionsOfDeltas(texts: seq<string>)
    ensures DeltaTexts(Deltas(texts)) == texts && Asides(Deltas(texts)) == []
    decreases |texts|
  {
    if texts != [] {
      ProjectionsOfDeltas(texts[1..]);
      assert Deltas(texts)[1..] == Deltas(texts[1..]);
      assert texts == [texts[0]] + texts[1..];
    }
  }

  lemma ProjectionsOfAside(update: Update, cb: Callbacks)
    ensures DeltaTexts(Aside(update, cb)) == [] && Asides(Aside(update, cb)) == Aside(update, cb)
  {
    var e := Aside(update, cb);
    if e != [] {
      assert e == [e[0]] && e[1..] == [];
      assert !e[0].Delta?;
    }
  }

  lemma NoMessageNoAside(update: Update, cb: Callbacks)
    ensures update.Message? ==> Aside(update, cb) == []
    ensures !update.Message? ==> MessageText(update) == ""
  {
  }

  lemma {:induction false} ProjectionsOfEvents(updates: seq<Update>, cb: Callbacks)
    ensures DeltaTexts(Events(updates, cb)) == if cb.onDelta then Kept(Complete(Text(updates))) else []
    ensures Asides(Events(updates, cb)) == AllAsides(updates, cb)
    decreases |updates|
  {
    if updates == [] {
      NothingComplete("");
    } else {
      var before, last := updates[..|updates| - 1], updates[|updates| - 1];
      ProjectionsOfEvents(before, cb);
      var sofar, piece := Text(before), MessageText(last);
      ProjectionsJoin(Events(before, cb), Shown(sofar, last, cb));
      ProjectionsOfShown(sofar, last, cb);
      CompleteAppend(sofar, piece);
      KeptJoin(Complete(sofar), Complete(Remainder(sofar) + piece));
    }
  }

  lemma ProjectionsOfShown(sofar: string, update: Update, cb: Callbacks)
    ensures DeltaTexts(Shown(sofar, update, cb)) ==
            if cb.onDelta then Kept(Complete(Remainder(sofar) + MessageText(update))) else []
    ensures Asides(Shown(sofar, update, cb)) == Aside(update, cb)
  {
    LinesHaveNoNewline(sofar);
    NoMessageNoAside(update, cb);
    if update.Message? {
      ProjectionsOfDeltas(Kept(Complete(Remainder(sofar) + MessageText(update))));
    } else {
      ProjectionsOfAside(update, cb);
      assert Remainder(sofar) + "" == Remainder(sofar);
      NothingComplete(Remainder(sofar));
    }
  }

  /** Which other event an update gives, and under which callback, after those of the updates before it. */
  lemma {:induction false} AsidesByKind(before: seq<Update>, update: Update, cb: Callbacks)
    ensures AllAsides([], cb) == []
    ensures AllAsides(before + [update], cb) ==
            AllAsides(before, cb) +
            if update.Thought? && update.text.Some? && cb.onThought then [Mused(update.text.value)]
            else if update.Tool? && cb.onTool then [ToolCall(update.body)]
            else if update.Usage? && cb.onUsage then [Used(update.body)]
            else []
  {
    assert (before + [update])[..|before|] == before;
  }

  lemma {:induction false} EventsGrow(a: seq<Update>, b: seq<Update>, cb: Callbacks)
    ensures Events(a, cb) <= Events(a + b, cb)
    decreases |b|
  {
    if b == [] {
      assert a + b == a;
    } else {
      assert (a + b)[..|a + b| - 1] == a + b[..|b| - 1];
      EventsGrow(a, b[..|b| - 1], cb);
    }
  }

  /** A line is shown as soon as it is complete, and before any event of a later update. */
  lemma {:induction false} LinesAreShownInTime(a: seq<Update>, b: seq<Update>, cb: Callbacks)
    ensures Events(a, cb) <= AllEvents(a + b, cb)
    ensures cb.onDelta ==> DeltaTexts(Events(a, cb)) == Kept(Complete(Concat(MessageTexts(a))))
    ensures Asides(Events(a, cb)) == AllAsides(a, cb)
  {
    EventsGrow(a, b, cb);
    ProjectionsOfEvents(a, cb);
    TextIsWhatWasSent(a);
  }

  /**
   However the kernel cuts its message into updates, and whatever comes between them: the deltas are
   the lines of the whole message without its headlines, and the other events are as they came.
   */
  lemma DeltasAreTheStreamedText(updates: seq<Update>, cb: Callbacks)
    ensures DeltaTexts(AllEvents(updates, cb)) == if cb.onDelta then Streamed(Concat(MessageTexts(updates))) else []
    ensures Asides(AllEvents(updates, cb)) == AllAsides(updates, cb)
  {
    TextIsWhatWasSent(updates);
    ProjectionsOfEvents(updates, cb);
    var rest := KeptRest(Remainder(Text(updates)));
    ProjectionsOfDeltas(rest);
    ProjectionsJoin(Events(updates, cb), Deltas(rest));
    assert Events(updates, cb) + [] == Events(updates, cb);
  }

  function Forwarded(update: Update, cb: Callbacks, texts: seq<string>): seq<Event> {
    if update.Message? then Deltas(texts) else Aside(update, cb)
  }

  /** The reply of a chat whose callbacks let the text accumulate. */
  ghost function Reply(text: string): string {
    if StripHeadlineText(text) == "" then NO_TEXT else StripHeadlineText(text)
  }

  lemma NothingCompleted(update: Update, sofar: string)
    requires MessageText(update) == ""
    ensures Kept(Complete(Remainder(sofar) + MessageText(update))) == []
    ensures Remainder(sofar + MessageText(update)) == Remainder(sofar)
  {
    LinesHaveNoNewline(sofar);
    NothingComplete(Remainder(sofar));
    CompleteAppend(sofar, "");
    assert Remainder(sofar) + "" == Remainder(sofar);
  }

  /**
   `Chat`. Without callbacks no text accumulates, so the reply is always the placeholder. The text is
   flushed even when the prompt failed.
   */
  method Chat(callbacks: Option<Callbacks>, updates: seq<Update>, prompt: Result<(), string>)
    returns (reply: Result<string, string>, events: seq<Event>)
    ensures callbacks.None? ==> events == [] && (prompt.Ok? ==> reply == Ok(NO_TEXT))
    ensures callbacks.Some? ==> events == AllEvents(updates, callbacks.value)
    ensures callbacks.Some? && callbacks.value.onDelta ==>
              DeltaTexts(events) == Streamed(Concat(MessageTexts(updates)))
    ensures callbacks.Some? ==> Asides(events) == AllAsides(updates, callbacks.value)
    ensures callbacks.Some? && prompt.Ok? ==> reply == Ok(Reply(Concat(MessageTexts(updates))))
    ensures prompt.Err? ==> reply == Err(prompt.error)
  {
    var text := "";
    var filter := new HeadlineLineFilter();
    events := [];
    NothingComplete("");
    assert updates[..0] == [];
    for i := 0 to |updates|
      invariant fresh(filter) && NoNewline(filter.buffer)
      invariant callbacks.None? ==> text == "" && events == []
      invariant callbacks.Some? ==> text == Text(updates[..i]) && events == Events(updates[..i], callbacks.value)
      invariant callbacks.Some? && callbacks.value.onDelta ==> filter.buffer == Remainder(Text(updates[..i]))
    {
      var update := updates[i];
      assert updates[..i + 1][..i] == updates[..i];
      if callbacks.None? {
        continue;
      }
      ghost var sofar := text;
      var piece := MessageText(update);
      var sent := |filter.emitted|;
      if piece != "" {
        text := text + piece;
        if callbacks.value.onDelta {
          CompleteAppend(sofar, piece);
          filter.Write(piece);
        }
      } else {
        NothingCompleted(update, sofar);
        assert sofar + "" == sofar;
      }
      events := events + Forwarded(update, callbacks.value, filter.emitted[sent..]);
      assert events == Events(updates[..i], callbacks.value) + Shown(sofar, update, callbacks.value);
    }
    assert updates[..|updates|] == updates;
    TextIsWhatWasSent(updates);
    if callbacks.Some? {
      DeltasAreTheStreamedText(updates, callbacks.value);
    }
    if callbacks.Some? && callbacks.value.onDelta {
      var sent := |filter.emitted|;
      filter.Flush();
      events := events + Deltas(filter.emitted[sent..]);
    }
    if prompt.Err? {
      return Err(prompt.error), events;
    }
    StripIsStripHeadlineText(text);
    NothingStripped();
    var stripped := Strip(text);
    reply := Ok(if stripped == "" then NO_TEXT else stripped);
  }

  lemma NothingStripped()
    ensures StripHeadlineText("") == ""
  {
  }

  // --- What the user of the stream sees ----------------------------------------------------------------

  /** The stream's callbacks: every event becomes a frame but a delta that is all space. */
  function Sent(events: seq<Event>): seq<Event> {
    if events == [] then []
    else
      (if events[0].Delta? && Trim(events[0].text) == "" then [] else [events[0]]) + Sent(events[1..])
  }

  lemma {:induction false} SentDeltas(events: seq<Event>)
    ensures DeltaTexts(Sent(events)) == Passed(DeltaTexts(events))
    ensures Asides(Sent(events)) == Asides(events)
    decreases |events|
  {
    if events != [] {
      SentDeltas(events[1..]);
      var e, rest := events[0], Sent(events[1..]);
      assert ([e] + rest)[1..] == rest;
      var texts := DeltaTexts(events[1..]);
      assert [] + rest == rest && [] + texts == texts && [] + Passed(texts) == Passed(texts);
      if e.Delta? {
        assert ([e.text] + texts)[1..] == texts;
      }
    }
  }

  predicate IsBlankDelta(e: Event) {
    e.Delta? && !HasText(e.text)
  }

  function ShownAt(events: seq<Event>): set<nat> {
    set k: nat | k < |events| && !IsBlankDelta(events[k])
  }

  lemma {:induction false} SentLast(events: seq<Event>, last: Event)
    ensures Sent(events + [last]) == Sent(events) + if IsBlankDelta(last) then [] else [last]
    decreases |events|
  {
    if events == [] {
      assert [] + [last] == [last] && [last][1..] == [];
      assert last.Delta? ==> (Trim(last.text) == "" <==> !HasText(last.text)) by {
        if last.Delta? {
          TrimToNothingIff(last.text);
        }
      }
    } else {
      assert (events + [last])[1..] == events[1..] + [last];
      SentLast(events[1..], last);
    }
  }

  /** Every event but a delta without text is sent, in its place. */
  lemma {:induction false} SentArePicked(events: seq<Event>)
    ensures PicksAll(Sent(events), events, ShownAt(events))
    decreases |events|
  {
    hide PicksAll;
    if events == [] {
      PicksNothing<Event>(ShownAt(events));
    } else {
      var k := |events| - 1;
      var before, last := events[..k], events[k];
      SentArePicked(before);
      assert events == before + [last];
      SentLast(before, last);
      PicksMore(Sent(before), before, ShownAt(before), last, ShownAt(events));
      assert Sent(before) + [] == Sent(before);
    }
  }

  const STREAM := Callbacks(true, true, true, true)

  /**
   The text a user watches stream by and the reply that is logged in the end are the same but for white
   space; if no text was shown, the reply is the placeholder.
   */
  lemma {:induction false} StreamAgreesWithReply(updates: seq<Update>)
    ensures var shown := DeltaTexts(Sent(AllEvents(updates, STREAM)));
            var text := Concat(MessageTexts(updates));
            && (shown == [] ==> Reply(text) == NO_TEXT)
            && (shown != [] ==> Erase(Concat(shown)) == Erase(Reply(text))
                                && Content(Lines(Reply(text))) == TrimEnds(WithoutEnds(shown))
                                && Reply(text) == StripHeadlineText(text) != "")
  {
    var text := Concat(MessageTexts(updates));
    DeltasAreTheStreamedText(updates, STREAM);
    SentDeltas(AllEvents(updates, STREAM));
    StreamedAndBatchAgree(text);
    StrippedIsShown(text);
    NothingShownIff(text);
  }
}
