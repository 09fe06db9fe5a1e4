/**
 A session of an instance: `Chat` and `ChatStream` log the user's message, let the engine answer, and
 log its answer or its error. When the engine is not ready the session falls back to the mock engine.
 */
module Conversation {
  import opened Options
  import opened HeadlineText
  import opened HeadlineFilter
  import opened Selections
  import opened EngineChat
  import opened ConversationLog

  const NO_REPLY := "（引擎未产生文本回复，请查看工具调用/工作区状态）"

  /** The mock engine keeps the configuration it was made with. */
  datatype Engine = Named(name: string) | Mock(model: string, provider: string)

  function NameOf(engine: Engine): string {
    if engine.Mock? then "mock" else engine.name
  }

  /** One call, with everything that is decided outside of the session. */
  datatype Turn = Turn(
    stream: bool,                    // `ChatStream` rather than `Chat`
    message: string,
    hint: string,                    // the session id of the request, or nothing
    active: string,                  // the engine's active session
    model: string, provider: string, // the current configuration
    ready: bool,                     // whether the engine is
    answer: Result<string, string>,  // what it answers
    events: seq<Event>,              // and the callbacks it makes meanwhile
    asked: string, answered: string, // the two times of day
    local: string,                   // an id made from the clock
    userDisk: Disk, replyDisk: Disk)

  datatype Response = Response(
    reply: string, model: string, provider: string, mock: bool, messageIndex: nat, sessionID: string)

  datatype Frame = Shown(event: Event) | Failed(message: string)

  datatype State = State(log: Option<string>, engine: Engine)

  function Key(turn: Turn): string {
    if turn.hint != "" then turn.hint else turn.active
  }

  function MockReply(model: string, provider: string, message: string): string {
    "【mock 回复 · 模型 " + model + " · provider " + provider + "】\n你刚才说：" + message
    + "\n（这是本地 mock 引擎的输出。配置真实引擎后即可切换。）"
  }

  /** The engine that answers. The mock engine is always ready. */
  function Answering(engine: Engine, turn: Turn): Engine {
    if turn.ready || engine.Mock? then engine else Mock(turn.model, turn.provider)
  }

  function AnswerOf(engine: Engine, turn: Turn): Result<string, string> {
    if engine.Mock? then Ok(MockReply(engine.model, engine.provider, turn.message)) else turn.answer
  }

  function ReplyOf(engine: Engine, turn: Turn, text: string): string {
    if text == "" && engine == Named("qwenpaw") && !turn.stream then NO_REPLY else text
  }

  function UserDraft(turn: Turn): Entry {
    Entry(turn.asked, "user", turn.message, turn.model, 0, Key(turn))
  }

  function AnswerDraft(engine: Engine, turn: Turn): Entry {
    match AnswerOf(engine, turn)
    case Ok(text) => Entry(turn.answered, "assistant", ReplyOf(engine, turn, text), turn.model, 0, Key(turn))
    case Err(message) => Entry(turn.answered, "error", message, turn.model, 0, Key(turn))
  }

  function ResponseOf(engine: Engine, turn: Turn, index: nat): Result<Response, Fault> {
    match AnswerOf(engine, turn)
    case Ok(text) =>
      Ok(Response(ReplyOf(engine, turn, text), turn.model, turn.provider, engine.Mock?, index,
                  if turn.hint != "" then turn.hint else turn.local))
    case Err(message) => Err(EngineFailed(message))
  }

  /** A call on values. Without the user's line there is no answer; whether the answer is logged is ignored. */
  function Converse(codec: Codec, s: State, turn: Turn): (State, Result<Response, Fault>) {
    var (asked, index) := Append(codec, s.log, UserDraft(turn), turn.userDisk);
    if index.Err? then (s.(log := asked), Err(index.error))
    else
      var engine := Answering(s.engine, turn);
      var answered := Append(codec, asked, AnswerDraft(engine, turn), turn.replyDisk).0;
      (State(answered, engine), ResponseOf(engine, turn, index.value))
  }

  /** What a stream sends. */
  function FramesOf(events: seq<Event>): (frames: seq<Frame>)
    ensures |frames| == |events|
  {
    seq(|events|, k requires 0 <= k < |events| => Shown(events[k]))
  }

  class Session {
    const codec: Codec
    var log: Option<string>
    var eng: Engine
    var engName: string

    ghost predicate Valid()
      reads this
    {
      engName == NameOf(eng) && (engName == "mock" ==> eng.Mock?)
    }

    ghost function View(): State
      reads this
    {
      State(log, eng)
    }

    /** A new session on the file an earlier one may have left. */
    constructor (codec: Codec, left: Option<string>, name: string, works: bool, model: string, provider: string)
      ensures Valid() && this.codec == codec && log == left
      ensures eng == if works && name != "mock" then Named(if name == "" then "qwenpaw" else name)
                     else Mock(model, provider)
    {
      this.codec := codec;
      log := left;
      if works && name != "mock" {
        var chosen := if name == "" then "qwenpaw" else name;
        eng, engName := Named(chosen), chosen;
      } else {
        eng, engName := Mock(model, provider), "mock";
      }
    }

    method MessageIndex(readable: bool) returns (r: Result<nat, Fault>)
      ensures r == if readable then Ok(|Complete(Bytes(log))|) else Err(ReadFailed)
    {
      if !readable {
        return Err(ReadFailed);
      }
      if log.None? {
        NothingComplete("");
        return Ok(0);
      }
      NewlinesAreLines(log.value);
      r := Ok(Newlines(log.value));
    }

    method AppendLog(draft: Entry, disk: Disk) returns (r: Result<nat, Fault>)
      modifies this`log
      ensures (log, r) == Append(codec, old(log), draft, disk)
    {
      NewlinesAreLines(Bytes(log));
      var idx := MessageIndex(!disk.Unreadable?);
      if idx.Err? {
        return Err(idx.error);
      }
      var index := idx.value + 1;
      var line := codec.enc(draft.(index := index)) + "\n";
      if disk.Unopenable? {
        return Err(OpenFailed);
      }
      if disk.Torn? {
        log := Some(Bytes(log) + if disk.n < |line| then line[..disk.n] else line);
        return Err(WriteFailed);
      }
      log := Some(Bytes(log) + line);
      r := Ok(index);
    }

    method FallBack(turn: Turn)
      requires Valid()
      modifies this`eng, this`engName
      ensures Valid() && eng == Answering(old(eng), turn)
    {
      var ready := eng.Mock? || turn.ready;
      if !ready && engName != "mock" {
        eng := Mock(turn.model, turn.provider);
        engName := "mock";
      }
    }

    method Chat(turn: Turn) returns (r: Result<Response, Fault>)
      requires Valid() && !turn.stream
      modifies this
      ensures Valid() && (View(), r) == Converse(codec, old(View()), turn)
    {
      var key := Key(turn);
      var idx := AppendLog(Entry(turn.asked, "user", turn.message, turn.model, 0, key), turn.userDisk);
      if idx.Err? {
        return Err(idx.error);
      }
      FallBack(turn);
      var answer := AnswerOf(eng, turn);
      if answer.Err? {
        var ignored := AppendLog(Entry(turn.answered, "error", answer.error, turn.model, 0, key), turn.replyDisk);
        return Err(EngineFailed(answer.error));
      }
      var reply := answer.value;
      if reply == "" && engName == "qwenpaw" {
        reply := NO_REPLY;
      }
      var mock := engName == "mock";
      var ignored := AppendLog(Entry(turn.answered, "assistant", reply, turn.model, 0, key), turn.replyDisk);
      var id := if turn.hint != "" then turn.hint else turn.local;
      r := Ok(Response(reply, turn.model, turn.provider, mock, idx.value, id));
    }

    /** The stream shows every callback but blank deltas, and then the engine's error if there is one. */
    method ChatStream(turn: Turn) returns (r: Result<Response, Fault>, frames: seq<Frame>)
      requires Valid() && turn.stream
      modifies this
      ensures Valid() && (View(), r) == Converse(codec, old(View()), turn)
      ensures r.Ok? ==> frames == FramesOf(Sent(turn.events))
      ensures r.Err? ==>
                frames == if r.error.EngineFailed? then FramesOf(Sent(turn.events)) + [Failed(r.error.message)] else []
    {
      var key := Key(turn);
      var idx := AppendLog(Entry(turn.asked, "user", turn.message, turn.model, 0, key), turn.userDisk);
      if idx.Err? {
        return Err(idx.error), [];
      }
      FallBack(turn);
      frames := FramesOf(Sent(turn.events));
      var answer := AnswerOf(eng, turn);
      if answer.Err? {
        frames := frames + [Failed(answer.error)];
        var ignored := AppendLog(Entry(turn.answered, "error", answer.error, turn.model, 0, key), turn.replyDisk);
        return Err(EngineFailed(answer.error)), frames;
      }
      var mock := engName == "mock";
      var ignored := AppendLog(Entry(turn.answered, "assistant", answer.value, turn.model, 0, key), turn.replyDisk);
      var id := if turn.hint != "" then turn.hint else turn.local;
      r := Ok(Response(answer.value, turn.model, turn.provider, mock, idx.value, id));
    }

    /**
     Filters the lines over the array they are read from: the first `len` elements are the lines of the
     session afterwards.
     */
    method FilterInPlace(lines: array<string>, sessionID: string) returns (len: nat)
      modifies lines
      ensures len <= lines.Length && lines[..len] == Matching(codec, old(lines[..]), sessionID)
    {
      ghost var split := lines[..];
      len := 0;
      for i := 0 to lines.Length
        invariant len <= i
        invariant lines[..len] == Matching(codec, split[..i], sessionID)
        invariant forall k :: i <= k < lines.Length ==> lines[k] == split[k]
      {
        var line := lines[i];
        assert split[..i + 1][..i] == split[..i];
        if IsOf(codec, line, sessionID) {
          lines[len] := line;
          len := len + 1;
        }
      }
      assert split[..lines.Length] == split;
    }

    method Decode(lines: array<string>, from: nat, len: nat) returns (out: seq<Entry>)
      requires from <= len <= lines.Length
      ensures out == Decoded(codec, lines[from..len])
    {
      ghost var wanted := lines[from..len];
      out := [];
      for i := from to len
        invariant out == Decoded(codec, wanted[..i - from])
      {
        assert wanted[..i + 1 - from][..i - from] == wanted[..i - from];
        assert wanted[i - from] == lines[i];
        var entry := codec.dec(lines[i]);
        if entry.Some? {
          out := out + [entry.value];
        }
      }
      assert wanted[..len - from] == wanted;
    }

    method History(n: int, sessionID: string, readable: bool) returns (r: Result<seq<Entry>, Fault>)
      ensures r == if readable then Ok(HistoryOf(codec, log, n, sessionID)) else Err(ReadFailed)
      ensures r.Ok? ==> HistoryPicks(codec, log, n, sessionID, r.value)
    {
      hide Lines, Trim, Matching, Decoded, HistoryPicks;
      HistoryPicksLast(codec, log, n, sessionID);
      if !readable {
        return Err(ReadFailed);
      }
      NothingSplit();
      if log.None? {
        return Ok([]);
      }
      var split := Lines(Trim(log.value));
      if split == [""] {
        return Ok([]);
      }
      var lines := new string[|split|](i requires 0 <= i < |split| => split[i]);
      var len := lines.Length;
      assert lines[..] == lines[..len] == split;
      if sessionID != "" {
        len := FilterInPlace(lines, sessionID);
      }
      var from := if n > 0 && len > n then len - n else 0;
      assert lines[from..len] == LastN(lines[..len], n);
      var out := Decode(lines, from, len);
      r := Ok(out);
    }
  }

  lemma NothingSplit()
    ensures Lines(Trim("")) == [""]
  {
  }

  // --- Runs ------------------------------------------------------------------------------------------

  /** Calls of one session after the other; a later one opens the file an earlier one left. */
  datatype Call = Talk(turn: Turn) | Reopen(engine: Engine)

  function After(codec: Codec, s: State, call: Call): State {
    match call
    case Talk(turn) => Converse(codec, s, turn).0
    case Reopen(engine) => s.(engine := engine)
  }

  function Run(codec: Codec, s: State, calls: seq<Call>): State {
    if calls == [] then s else After(codec, Run(codec, s, calls[..|calls| - 1]), calls[|calls| - 1])
  }

  lemma ConverseExtends(codec: Codec, s: State, turn: Turn)
    requires GoodCodec(codec)
    ensures Bytes(s.log) <= Bytes(Converse(codec, s, turn).0.log)
  {
    var (asked, index) := Append(codec, s.log, UserDraft(turn), turn.userDisk);
    AppendReturnsLineNumber(codec, s.log, UserDraft(turn), turn.userDisk);
    AppendReturnsLineNumber(codec, asked, AnswerDraft(Answering(s.engine, turn), turn), turn.replyDisk);
  }

  lemma {:induction false} RunExtends(codec: Codec, s: State, calls: seq<Call>)
    requires GoodCodec(codec)
    ensures Bytes(s.log) <= Bytes(Run(codec, s, calls).log)
    decreases |calls|
  {
    if calls != [] {
      var k := |calls| - 1;
      RunExtends(codec, s, calls[..k]);
      if calls[k].Talk? {
        ConverseExtends(codec, Run(codec, s, calls[..k]), calls[k].turn);
      }
    }
  }

  lemma PrefixKeepsLines(s: string, t: string)
    requires s <= t
    ensures Complete(s) <= Complete(t)
  {
    LinesStay(s, t[|s|..]);
    assert s + t[|s|..] == t;
  }

  /**
   The index that a call returns is the number of the line that holds the user's message, then and
   after any further calls, across reopenings and whatever writes fail or are torn.
   */
  lemma MessageIndexNamesItsLine(codec: Codec, s: State, turn: Turn, later: seq<Call>)
    requires GoodCodec(codec) && Converse(codec, s, turn).1.Ok?
    ensures var i := Converse(codec, s, turn).1.value.messageIndex;
            var file := Bytes(Run(codec, Converse(codec, s, turn).0, later).log);
            && 1 <= i <= |Complete(file)|
            && Complete(file)[i - 1] == Remainder(Bytes(s.log)) + codec.enc(UserDraft(turn).(index := i))
  {
    var asked := Append(codec, s.log, UserDraft(turn), turn.userDisk).0;
    AppendReturnsLineNumber(codec, s.log, UserDraft(turn), turn.userDisk);
    AppendReturnsLineNumber(codec, asked, AnswerDraft(Answering(s.engine, turn), turn), turn.replyDisk);
    var t := Converse(codec, s, turn).0;
    RunExtends(codec, t, later);
    PrefixKeepsLines(Bytes(asked), Bytes(Run(codec, t, later).log));
  }

  /** No write of the call tears its line. */
  predicate Whole(call: Call) {
    call.Talk? ==> !call.turn.userDisk.Torn? && !call.turn.replyDisk.Torn?
  }

  /** The entries a call adds to a log of n lines. */
  function Added(engine: Engine, call: Call, n: nat): seq<Entry> {
    if call.Reopen? || !call.turn.userDisk.Fine? then []
    else
      var answer := AnswerDraft(Answering(engine, call.turn), call.turn);
      [UserDraft(call.turn).(index := n + 1)] + if call.turn.replyDisk.Fine? then [answer.(index := n + 2)] else []
  }

  lemma TalkAdds(codec: Codec, s: State, call: Call, entries: seq<Entry>)
    requires GoodCodec(codec) && Holds(codec, s.log, entries) && Whole(call)
    ensures Holds(codec, After(codec, s, call).log, entries + Added(s.engine, call, |entries|))
    ensures call.Talk? && Converse(codec, s, call.turn).1.Ok? ==>
              Converse(codec, s, call.turn).1.value.messageIndex == |entries| + 1
  {
    hide GoodCodec, Holds, Append, Answering;
    match call
    case Reopen(_) => assert entries + [] == entries;
    case Talk(turn) =>
      AppendHolds(codec, s.log, entries, UserDraft(turn), turn.userDisk);
      if turn.userDisk.Fine? {
        var more := entries + [UserDraft(turn).(index := |entries| + 1)];
        var asked := Append(codec, s.log, UserDraft(turn), turn.userDisk).0;
        AppendHolds(codec, asked, more, AnswerDraft(Answering(s.engine, turn), turn), turn.replyDisk);
        var answer := AnswerDraft(Answering(s.engine, turn), turn).(index := |more| + 1);
        assert more + (if turn.replyDisk.Fine? then [answer] else []) == entries + Added(s.engine, call, |entries|);
      } else {
        var (asked, index) := Append(codec, s.log, UserDraft(turn), turn.userDisk);
        assert index.Err?;
        assert entries + [] == entries;
      }
  }

  /** All entries of a run, from its calls alone, with the engine it ends with. */
  function Entries(calls: seq<Call>, engine: Engine): (seq<Entry>, Engine) {
    if calls == [] then ([], engine)
    else
      var k := |calls| - 1;
      var (before, e) := Entries(calls[..k], engine);
      (before + Added(e, calls[k], |before|), EngineAfter(e, calls[k]))
  }

  function EngineAfter(engine: Engine, call: Call): Engine {
    match call
    case Reopen(e) => e
    case Talk(turn) => if turn.userDisk.Fine? then Answering(engine, turn) else engine
  }

  lemma {:induction false} IndexesAreContinuous(calls: seq<Call>, engine: Engine)
    ensures Continuous(Entries(calls, engine).0)
    decreases |calls|
  {
    if calls != [] {
      IndexesAreContinuous(calls[..|calls| - 1], engine);
    }
  }

  /**
   Over any serial run of calls and reopenings in which no write is torn: the file is exactly the
   entries of the calls in order, the k-th with index k.
   */
  lemma {:induction false} LogOfRun(codec: Codec, engine: Engine, calls: seq<Call>)
    requires GoodCodec(codec) && forall k :: 0 <= k < |calls| ==> Whole(calls[k])
    ensures var (entries, e) := Entries(calls, engine);
            var s := Run(codec, State(None, engine), calls);
            Holds(codec, s.log, entries) && s.engine == e && Continuous(entries)
    decreases |calls|
  {
    hide GoodCodec, Holds, Continuous, Converse, Added, Answering;
    IndexesAreContinuous(calls, engine);
    if calls == [] {
      NothingWritten(codec);
    } else {
      var k := |calls| - 1;
      LogOfRun(codec, engine, calls[..k]);
      var s := Run(codec, State(None, engine), calls[..k]);
      TalkAdds(codec, s, calls[k], Entries(calls[..k], engine).0);
      EngineOfCall(codec, s, calls[k]);
    }
  }

  lemma NothingWritten(codec: Codec)
    ensures Holds(codec, None, [])
  {
  }

  lemma EngineOfCall(codec: Codec, s: State, call: Call)
    ensures After(codec, s, call).engine == EngineAfter(s.engine, call)
  {
  }

  /**
   Whatever the file contains, if it ends with a complete line and both writes work: a call adds exactly
   two lines, the user's message and the engine's answer or error, encoded under one session key with
   their own line numbers, and a successful call returns the number of the first.
   */
  lemma {:induction false} TwoLinesPerCall(codec: Codec, s: State, turn: Turn)
    requires GoodCodec(codec) && Remainder(Bytes(s.log)) == ""
    requires turn.userDisk.Fine? && turn.replyDisk.Fine?
    ensures var (t, r) := Converse(codec, s, turn);
            var n := |Complete(Bytes(s.log))|;
            var asked := UserDraft(turn).(index := n + 1);
            var answered := AnswerDraft(Answering(s.engine, turn), turn).(index := n + 2);
            && Complete(Bytes(t.log)) == Complete(Bytes(s.log)) + [codec.enc(asked), codec.enc(answered)]
            && Remainder(Bytes(t.log)) == ""
            && asked.sessionID == answered.sessionID == (if turn.hint != "" then turn.hint else turn.active)
            && asked.ts == turn.asked && answered.ts == turn.answered && asked.model == answered.model == turn.model
            && asked.role == "user" && asked.content == turn.message
            && answered.role == (if r.Ok? then "assistant" else "error")
            && (r.Ok? ==> r.value.messageIndex == n + 1 && answered.content == r.value.reply)
            && (r.Err? ==> r.error == EngineFailed(answered.content))
  {
    TwoAppends(codec, s.log, UserDraft(turn), AnswerDraft(Answering(s.engine, turn), turn));
    hide GoodCodec, Append, Complete, Remainder, Answering;
  }

  /** The mock engine's reply is three lines: who it is, what was said, and a notice. */
  lemma MockReplyIsThreeLines(model: string, provider: string, message: string)
    ensures MockReply(model, provider, message) ==
            Join(["【mock 回复 · 模型 " + model + " · provider " + provider + "】", "你刚才说：" + message,
                  "（这是本地 mock 引擎的输出。配置真实引擎后即可切换。）"])
  {
    var a := "【mock 回复 · 模型 " + model + " · provider " + provider + "】";
    var b, c := "你刚才说：" + message, "（这是本地 mock 引擎的输出。配置真实引擎后即可切换。）";
    JoinThree(a, b, c);
    assert "】\n你刚才说：" == "】" + "\n" + "你刚才说：";
    assert "\n（这是本地 mock 引擎的输出。配置真实引擎后即可切换。）" == "\n" + c;
  }

  lemma JoinThree(a: string, b: string, c: string)
    ensures Join([a, b, c]) == a + "\n" + (b + "\n" + c)
  {
    assert [a, b, c][1..] == [b, c] && [b, c][1..] == [c];
    assert Join([c]) == c;
  }

  /**
   Who answers, and what. An engine that is not ready is replaced by the mock engine with the current
   configuration, and that one stays. The mock engine always answers; another one's answer is passed on,
   but for an empty one of qwenpaw outside of a stream. A call whose message cannot be logged asks nobody.
   */
  lemma {:induction false} WhoAnswers(codec: Codec, s: State, turn: Turn)
    ensures var (t, r) := Converse(codec, s, turn);
            var id := if turn.hint != "" then turn.hint else turn.local;
            if !turn.userDisk.Fine? then t.engine == s.engine && r.Err? && !r.error.EngineFailed?
            else
              && t.engine == (if s.engine.Named? && !turn.ready then Mock(turn.model, turn.provider) else s.engine)
              && match t.engine
                 case Mock(model, provider) =>
                   && r.Ok? && r.value.mock && r.value.reply == MockReply(model, provider, turn.message)
                   && r.value.model == turn.model && r.value.provider == turn.provider && r.value.sessionID == id
                 case Named(name) =>
                   if turn.answer.Err? then r == Err(EngineFailed(turn.answer.error))
                   else
                     && r.Ok? && !r.value.mock
                     && r.value.reply == (if turn.answer.value == "" && name == "qwenpaw" && !turn.stream then NO_REPLY
                                          else turn.answer.value)
                     && r.value.model == turn.model && r.value.provider == turn.provider && r.value.sessionID == id
  {
  }

  /** What `History` returns after any such run. */
  lemma {:induction false} HistoryOfRun(codec: Codec, engine: Engine, calls: seq<Call>, n: int, sessionID: string)
    requires GoodCodec(codec) && forall k :: 0 <= k < |calls| ==> Whole(calls[k])
    ensures var entries := Entries(calls, engine).0;
            var history := HistoryOf(codec, Run(codec, State(None, engine), calls).log, n, sessionID);
            PicksLast(history, entries, OfSessionAt(entries, sessionID), n)
  {
    LogOfRun(codec, engine, calls);
    HistoryReadsBack(codec, Run(codec, State(None, engine), calls).log, Entries(calls, engine).0, n, sessionID);
  }
}
