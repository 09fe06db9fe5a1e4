/**
 The ACP client as one caller sees it: starting, restarting, hot-switching and prompting, where every
 request ends in a reply, an error reply, a crash, a write fault or a timeout, and the current process
 may crash between any two locked regions. Ghost fields record what was spawned and written.
 */
module AcpPrompt {
  import opened Options
  import AcpRegions

  datatype Config = Config(
    baseURL: string, apiKey: string, model: string,
    models: seq<string>, provider: string, toolGuardMode: string)

  /** The three fields a running process was given through its environment. */
  predicate SameCredentials(a: Config, b: Config) {
    a.baseURL == b.baseURL && a.apiKey == b.apiKey && a.model == b.model
  }

  predicate NeedsNoProcess(cfg: Config) {
    cfg.baseURL == "" || "mock://" <= cfg.baseURL
  }

  datatype Call =
    | Initialize
    | NewSession
    | SetConfigOption(sid: string)
    | SessionPrompt(sid: string, message: string)
    | Cancel(sid: string)
    | CloseSession(sid: string)

  datatype Fault = Transport | ContextEnded | Rpc(code: int) | Write | NoRealModel | SpawnFailed | NoSessionID

  /** How one request ends: without a process, by what the peer and the system do, or by its own context. */
  datatype Ending =
    | NoProcess
    | Reply(sessionId: string)
    | ErrorReply(code: int)
    | Crash
    | Timeout
    | WriteFails

  /** What a caller makes of it. A failed write is no transport fault. */
  function FaultOf(ending: Ending): Option<Fault> {
    match ending
    case NoProcess | Crash => Some(Transport)
    case Reply(_) => None
    case ErrorReply(code) => Some(if code == AcpRegions.PROCESS_GONE_CODE then Transport else Rpc(code))
    case Timeout => Some(ContextEnded)
    case WriteFails => Some(Write)
  }

  datatype Event =
    | Spawned(gen: nat)
    | Gone(gen: nat)
    | Wrote(gen: nat, call: Call, handler: Option<nat>)  // with the handler of a prompt's session
    | Answered(gen: nat, call: Call)
    | Ended(call: Call, ending: Ending)
    | Recorded(key: string, sid: string)  // a local key was given a session
    | Attempted(fault: Option<Fault>)  // one `promptOnce` returned
    | Restarted(fault: Option<Fault>)  // one `Restart` returned

  /** The processes a sequence of events wrote `session/prompt` to, in order. */
  function PromptGens(events: seq<Event>): (gens: seq<nat>)
    ensures |gens| <= |events|
  {
    if events == [] then []
    else
      var e := events[|events| - 1];
      PromptGens(events[..|events| - 1]) + if e.Wrote? && e.call.SessionPrompt? then [e.gen] else []
  }

  lemma {:induction false} PromptGensJoin(a: seq<Event>, b: seq<Event>)
    ensures PromptGens(a + b) == PromptGens(a) + PromptGens(b)
    decreases |b|
  {
    if b == [] {
      assert a + b == a;
    } else {
      var k := |b| - 1;
      assert (a + b)[..|a + b| - 1] == a + b[..k];
      PromptGensJoin(a, b[..k]);
    }
  }

  predicate IsPrompt(e: Event) {
    e.Wrote? && e.call.SessionPrompt?
  }

  lemma {:induction false} NoPromptGens(events: seq<Event>)
    requires PromptGens(events) == []
    ensures forall e :: e in events ==> !IsPrompt(e)
    decreases |events|
  {
    if events != [] {
      NoPromptGens(events[..|events| - 1]);
    }
  }

  /** A local key's session: the one it had, or one the peer has made and that was recorded for it since. */
  ghost predicate Knows(known: map<string, string>, events: seq<Event>, key: string, sid: string) {
    || (key in known && known[key] == sid)
    || (Recorded(key, sid) in events && Ended(NewSession, Reply(sid)) in events)
  }

  /** Each table entry is an old one or has been recorded since. */
  ghost predicate Sourced(now: map<string, string>, known: map<string, string>, events: seq<Event>) {
    forall key :: key in now ==> Knows(known, events, key, now[key])
  }

  /**
   Every prompt written goes to the session of its local key, with its message, while its handler is
   registered for that session.
   */
  ghost predicate PromptsGoTo(
    events: seq<Event>, key: string, message: string, handler: nat, known: map<string, string>)
  {
    forall e :: e in events && IsPrompt(e) ==>
                  e.call.message == message && e.handler == Some(handler) && Knows(known, events, key, e.call.sid)
  }

  lemma NoPromptsGoAnywhere(events: seq<Event>, key: string, message: string, handler: nat, known: map<string, string>)
    requires PromptGens(events) == []
    ensures PromptsGoTo(events, key, message, handler, known)
  {
    NoPromptGens(events);
  }

  lemma PromptsGoOn(a: seq<Event>, b: seq<Event>, key: string, message: string, handler: nat,
                    known: map<string, string>, later: map<string, string>)
    requires PromptsGoTo(a, key, message, handler, known) && PromptsGoTo(b, key, message, handler, later)
    requires key in later ==> Knows(known, a, key, later[key])
    ensures PromptsGoTo(a + b, key, message, handler, known)
  {
    assert forall e :: e in a || e in b <==> e in a + b;
  }

  lemma SourcedOn(a: seq<Event>, b: seq<Event>,
                  known: map<string, string>, mid: map<string, string>, now: map<string, string>)
    requires Sourced(mid, known, a) && Sourced(now, mid, b)
    ensures Sourced(now, known, a + b)
  {
    assert forall e :: e in a || e in b <==> e in a + b;
    forall key | key in now
      ensures Knows(known, a + b, key, now[key])
    {
      assert Knows(mid, b, key, now[key]);
    }
  }

  lemma PromptGensSingle(e: Event)
    ensures PromptGens([e]) == if e.Wrote? && e.call.SessionPrompt? then [e.gen] else []
  {
    assert [e][..0] == [];
  }

  /** The events recorded since the history was `before`. */
  function Since(before: seq<Event>, now: seq<Event>): seq<Event>
    requires before <= now
  {
    now[|before|..]
  }

  /** Nothing recorded since `before` is a prompt. */
  ghost predicate Quiet(before: seq<Event>, now: seq<Event>) {
    before <= now && PromptGens(Since(before, now)) == []
  }

  lemma QuietTrans(a: seq<Event>, b: seq<Event>, c: seq<Event>)
    requires Quiet(a, b) && b <= c
    ensures a <= c && PromptGens(Since(a, c)) == PromptGens(Since(b, c))
    ensures LastEnding(Since(a, c)) ==
            if LastEnding(Since(b, c)).Some? then LastEnding(Since(b, c)) else LastEnding(Since(a, b))
  {
    assert Since(a, c) == Since(a, b) + Since(b, c);
    PromptGensJoin(Since(a, b), Since(b, c));
    LastEndingJoin(Since(a, b), Since(b, c));
  }

  lemma QuietNothing(a: seq<Event>)
    ensures Quiet(a, a) && LastEnding(Since(a, a)).None?
  {
    assert Since(a, a) == [];
  }

  lemma QuietStep(a: seq<Event>, e: Event)
    requires !e.Wrote? && !e.Ended?
    ensures Quiet(a, a + [e]) && LastEnding(Since(a, a + [e])).None?
  {
    PromptGensSingle(e);
    assert [e][..0] == [];
    assert Since(a, a + [e]) == [e];
  }

  function Last(events: seq<Event>): Option<Event> {
    if events == [] then None else Some(events[|events| - 1])
  }

  /** How the last request among some events ended. */
  function LastEnding(events: seq<Event>): Option<Ending> {
    if events == [] then None
    else
      var e := events[|events| - 1];
      if e.Ended? then Some(e.ending) else LastEnding(events[..|events| - 1])
  }

  lemma {:induction false} LastEndingJoin(a: seq<Event>, b: seq<Event>)
    ensures LastEnding(a + b) == if LastEnding(b).Some? then LastEnding(b) else LastEnding(a)
    decreases |b|
  {
    if b == [] {
      assert a + b == a;
    } else {
      assert (a + b)[..|a + b| - 1] == a + b[..|b| - 1];
      LastEndingJoin(a, b[..|b| - 1]);
    }
  }

  lemma GoneStays(a: seq<Event>, b: seq<Event>, c: seq<Event>, d: seq<Event>)
    requires a <= b <= c <= d
    ensures a <= d && forall e :: e in Since(b, c) ==> e in Since(a, d)
  {
    assert Since(a, d) == Since(a, b) + Since(b, c) + Since(c, d);
  }

  /** The last request, or its absence, is what this fault comes from. */
  predicate Causes(events: seq<Event>, fault: Fault) {
    match fault
    case NoRealModel | SpawnFailed => LastEnding(events).None?
    case NoSessionID => LastEnding(events) == Some(Reply(""))
    case _ => LastEnding(events).Some? && FaultOf(LastEnding(events).value) == Some(fault)
  }

  /** One `promptOnce`, as recorded. */
  ghost predicate OneAttempt(events: seq<Event>, fault: Option<Fault>) {
    Last(events) == Some(Attempted(fault)) && AskedOnce(events, fault)
  }

  ghost predicate PromptAnswered(events: seq<Event>, gen: nat) {
    exists e :: e in events && e.Answered? && e.gen == gen && e.call.SessionPrompt?
  }

  /** At most one prompt is written, and a success was answered by the process it was written to. */
  ghost predicate AskedOnce(events: seq<Event>, fault: Option<Fault>) {
    && |PromptGens(events)| <= 1
    && (fault.None? ==> |PromptGens(events)| == 1 && PromptAnswered(events, PromptGens(events)[0]))
    && (fault.None? ==> LastEnding(events).Some? && LastEnding(events).value.Reply?)
    && (fault.Some? ==> Causes(events, fault.value))
  }

  lemma AskedLater(before: seq<Event>, mid: seq<Event>, now: seq<Event>, fault: Option<Fault>)
    requires Quiet(before, mid) && mid <= now && AskedOnce(Since(mid, now), fault)
    requires LastEnding(Since(mid, now)).Some?
    ensures before <= now && AskedOnce(Since(before, now), fault)
    ensures PromptGens(Since(before, now)) == PromptGens(Since(mid, now))
    ensures LastEnding(Since(before, now)) == LastEnding(Since(mid, now))
  {
    QuietTrans(before, mid, now);
    assert Since(before, now) == Since(before, mid) + Since(mid, now);
  }

  lemma AskedThenQuiet(before: seq<Event>, mid: seq<Event>, now: seq<Event>, fault: Option<Fault>)
    requires before <= mid && AskedOnce(Since(before, mid), fault)
    requires Quiet(mid, now) && LastEnding(Since(mid, now)).None?
    ensures before <= now && AskedOnce(Since(before, now), fault)
    ensures LastEnding(Since(before, now)) == LastEnding(Since(before, mid))
    ensures PromptGens(Since(before, now)) == PromptGens(Since(before, mid))
  {
    hide PromptGens, LastEnding;
    PromptGensJoin(Since(before, mid), Since(mid, now));
    LastEndingJoin(Since(before, mid), Since(mid, now));
    assert Since(before, now) == Since(before, mid) + Since(mid, now);
  }

  lemma QuietFailure(before: seq<Event>, now: seq<Event>, fault: Fault)
    requires Quiet(before, now) && Causes(Since(before, now), fault)
    ensures AskedOnce(Since(before, now), Some(fault)) && PromptGens(Since(before, now)) == []
  {
  }

  lemma AskedThenNoted(before: seq<Event>, mid: seq<Event>, fault: Option<Fault>)
    requires before <= mid && AskedOnce(Since(before, mid), fault)
    ensures before <= mid + [Attempted(fault)] && OneAttempt(Since(before, mid + [Attempted(fault)]), fault)
    ensures PromptGens(Since(before, mid + [Attempted(fault)])) == PromptGens(Since(before, mid))
  {
    PromptGensSingle(Attempted(fault));
    PromptGensJoin(Since(before, mid), [Attempted(fault)]);
    LastEndingJoin(Since(before, mid), [Attempted(fault)]);
    assert Since(before, mid + [Attempted(fault)]) == Since(before, mid) + [Attempted(fault)];
  }

  /** One `Restart`: no prompt is written. */
  ghost predicate OneRestart(events: seq<Event>, fault: Option<Fault>) {
    Last(events) == Some(Restarted(fault)) && PromptGens(events) == []
  }

  /** A retry happens exactly after a transport fault, and only once the restart has completed. */
  ghost predicate PromptRun(first: seq<Event>, restart: seq<Event>, second: seq<Event>, fault: Option<Fault>) {
    || (restart == [] && second == [] && OneAttempt(first, fault) && fault != Some(Transport))
    || (OneAttempt(first, Some(Transport)) && OneRestart(restart, fault) && fault.Some? && second == [])
    || (OneAttempt(first, Some(Transport)) && OneRestart(restart, None) && OneAttempt(second, fault))
  }

  lemma ShortAndAscending(a: seq<nat>, c: seq<nat>)
    requires |a| <= 1 && |c| <= 1 && forall g, h :: g in a && h in c ==> g < h
    ensures |a + c| <= 2 && forall i, j :: 0 <= i < j < |a + c| ==> (a + c)[i] < (a + c)[j]
  {
    assert |a| == 1 && |c| == 1 ==> a[0] in a && c[0] in c;
  }

  /** Whatever happens, one call writes at most two prompts, and no process is written two. */
  lemma AtMostTwoPrompts(first: seq<Event>, restart: seq<Event>, second: seq<Event>, fault: Option<Fault>)
    requires PromptRun(first, restart, second, fault)
    requires forall g, h :: g in PromptGens(first) && h in PromptGens(second) ==> g < h
    ensures var gens := PromptGens(first + restart + second);
            && |gens| <= 2
            && (forall i, j :: 0 <= i < j < |gens| ==> gens[i] < gens[j])
            && (|gens| == 2 ==> Attempted(Some(Transport)) in first && Restarted(None) in restart)
            && (fault.None? ==> gens != [])
  {
    assert PromptGens([]) == [];
    hide PromptGens;
    PromptGensJoin(first, restart);
    PromptGensJoin(first + restart, second);
    assert PromptGens(restart) == [] && PromptGens(first) + [] == PromptGens(first);
    ShortAndAscending(PromptGens(first), PromptGens(second));
  }

  /** The endings after which `Prompt` tries again. */
  predicate Retried(ending: Ending) {
    ending.NoProcess? || ending.Crash? || ending == ErrorReply(AcpRegions.PROCESS_GONE_CODE)
  }

  /**
   `Prompt` restarts exactly if the last request of its first attempt found no process, met a crash, or
   was answered with the code that stands for one. After a failed write it gives up.
   */
  lemma {:induction false} RetriesExactlyAfter(
    first: seq<Event>, restart: seq<Event>, second: seq<Event>, fault: Option<Fault>)
    requires PromptRun(first, restart, second, fault)
    ensures restart != [] <==> LastEnding(first).Some? && Retried(LastEnding(first).value)
    ensures second != [] ==> restart != []
    ensures LastEnding(first) == Some(WriteFails) ==> fault == Some(Write) && second == []
  {
    hide PromptGens, LastEnding;
  }

  class ACPServer {
    var cfg: Config
    var proc: Option<nat>
    var sessions: map<string, string>
    var handlers: map<string, nat>
    var spawnedCfg: Option<Config>
    var connected: bool
    var spawned: nat
    ghost var born: seq<Config>  // the configuration each process was spawned with
    ghost var events: seq<Event>

    ghost predicate Valid()
      reads this
    {
      && |born| == spawned
      && (proc.Some? ==> proc.value < spawned)
      && (proc.Some? && connected ==> spawnedCfg == Some(born[proc.value]))
      && (forall key :: key in sessions ==> sessions[key] != "")
    }

    constructor (cfg: Config)
      ensures Valid() && this.cfg == cfg && proc.None? && spawnedCfg.None? && events == []
    {
      this.cfg := cfg;
      spawned := 0;
      proc, spawnedCfg, connected := None, None, false;
      sessions, handlers := map[], map[];
      born, events := [], [];
    }

    /** The watcher of the current process, which may fire between any two locked regions. */
    method MayCrash(must: bool)
      requires Valid()
      modifies this
      ensures Valid() && cfg == old(cfg) && spawnedCfg == old(spawnedCfg)
      ensures spawned == old(spawned) && born == old(born)
      ensures must ==> proc.None?
      ensures || unchanged(this)
              || (old(proc).Some? && proc.None? && !connected && sessions == map[] && handlers == map[]
                  && events == old(events) + [Gone(old(proc).value)])
      ensures Quiet(old(events), events) && LastEnding(Since(old(events), events)).None?
      ensures forall e :: e in Since(old(events), events) ==> e.Gone?
    {
      QuietNothing(events);
      if proc.Some? {
        QuietStep(events, Gone(proc.value));
      }
      var crash: bool := *;
      if proc.Some? && (must || crash) {
        events := events + [Gone(proc.value)];
        proc, connected := None, false;
        sessions, handlers := map[], map[];
      }
    }

    method KillLocked()
      requires Valid()
      modifies this
      ensures Valid() && cfg == old(cfg) && spawnedCfg == old(spawnedCfg)
      ensures spawned == old(spawned) && born == old(born)
      ensures proc.None?
      ensures old(proc).None? ==> unchanged(this)
      ensures old(proc).Some? ==> !connected && sessions == map[] && handlers == map[]
                                  && events == old(events) + [Gone(old(proc).value)]
      ensures Quiet(old(events), events) && LastEnding(Since(old(events), events)).None?
    {
      QuietNothing(events);
      if proc.None? {
        return;
      }
      QuietStep(events, Gone(proc.value));
      events := events + [Gone(proc.value)];
      proc, connected := None, false;
      sessions, handlers := map[], map[];
    }

    /** One request, and how it ended. */
    method Request(call: Call) returns (r: Result<string, Fault>, ghost ending: Ending)
      requires Valid()
      modifies this
      ensures Valid() && cfg == old(cfg) && spawnedCfg == old(spawnedCfg)
      ensures spawned == old(spawned) && born == old(born)
      ensures connected ==> old(connected)
      ensures proc == old(proc) || proc.None?
      ensures forall k :: k in handlers ==> k in old(handlers) && handlers[k] == old(handlers)[k]
      ensures sessions == old(sessions) || sessions == map[]
      ensures ending.NoProcess? <==> old(proc).None?
      ensures ending.Crash? ==> proc.None?
      ensures ending.WriteFails? ==> !connected
      ensures old(events) <= events
      ensures OneRequest(Since(old(events), events), old(proc), call, HandlerFor(call, old(handlers)), ending)
      ensures r == if FaultOf(ending).None? then Ok(ending.sessionId) else Err(FaultOf(ending).value)
    {
      hide PromptGens, LastEnding;
      QuietNothing(events);
      ghost var before, handler := events, HandlerFor(call, handlers);
      if proc.None? {
        ending := NoProcess;
        EndedNow(before, events, proc, call, handler, ending);
        events := events + [Ended(call, ending)];
        return Err(Transport), ending;
      }
      var end := Exchange(call);
      ending := end;
      EndedNow(before, events, old(proc), call, handler, end);
      events := events + [Ended(call, end)];
      r := if FaultOf(end).None? then Ok(end.sessionId) else Err(FaultOf(end).value);
    }

    /** Writing the request and waiting for what comes, during which the process may crash. */
    method Exchange(call: Call) returns (end: Ending)
      requires Valid() && proc.Some?
      modifies this
      ensures Valid() && cfg == old(cfg) && spawnedCfg == old(spawnedCfg)
      ensures spawned == old(spawned) && born == old(born)
      ensures connected ==> old(connected)
      ensures proc == old(proc) || proc.None?
      ensures forall k :: k in handlers ==> k in old(handlers) && handlers[k] == old(handlers)[k]
      ensures sessions == old(sessions) || sessions == map[]
      ensures !end.NoProcess? && (end.Crash? ==> proc.None?) && (end.WriteFails? ==> !connected)
      ensures var written := Written(old(proc).value, call, HandlerFor(call, old(handlers)), end);
              || events == old(events) + written
              || events == old(events) + written + [Gone(old(proc).value)]
    {
      var any: Ending := *;
      end := if any.NoProcess? then Crash else any;
      events := events + Written(proc.value, call, HandlerFor(call, handlers), end);
      if end.WriteFails? {
        connected := false;
      }
      MayCrash(end.Crash?);
    }

    /** Whoever is registered for the session of a prompt. */
    static function HandlerFor(call: Call, handlers: map<string, nat>): Option<nat> {
      if call.SessionPrompt? && call.sid in handlers then Some(handlers[call.sid]) else None
    }

    /** What one request to this process, if there is one, leaves in the record. */
    static ghost predicate OneRequest(
      added: seq<Event>, proc: Option<nat>, call: Call, handler: Option<nat>, ending: Ending)
      requires ending.NoProcess? <==> proc.None?
    {
      && LastEnding(added) == Some(ending) && Ended(call, ending) in added
      && PromptGens(added) == (if call.SessionPrompt? && WasWritten(ending) then [proc.value] else [])
      && (ending.Reply? ==> Answered(proc.value, call) in added)
      && (forall e :: e in added && e.Wrote? ==> proc.Some? && e == Wrote(proc.value, call, handler))
      && (forall e :: e in added && e.Ended? ==> e == Ended(call, ending))
    }

    static ghost predicate WasWritten(ending: Ending) {
      !ending.NoProcess? && !ending.WriteFails?
    }

    static ghost function Written(gen: nat, call: Call, handler: Option<nat>, ending: Ending): seq<Event> {
      if !WasWritten(ending) then []
      else if ending.Reply? then [Wrote(gen, call, handler), Answered(gen, call)]
      else [Wrote(gen, call, handler)]
    }

    static lemma EndedNow(before: seq<Event>, mid: seq<Event>, proc: Option<nat>, call: Call, handler: Option<nat>,
                          ending: Ending)
      requires ending.NoProcess? <==> proc.None?
      requires || (proc.None? && mid == before)
               || (proc.Some? && mid == before + Written(proc.value, call, handler, ending))
               || (proc.Some? && mid == before + Written(proc.value, call, handler, ending) + [Gone(proc.value)])
      ensures before <= mid + [Ended(call, ending)]
      ensures OneRequest(Since(before, mid + [Ended(call, ending)]), proc, call, handler, ending)
    {
      hide OneRequest, PromptGens, LastEnding;
      if proc.Some? {
        WrittenGens(before, mid, proc.value, call, handler, ending);
      } else {
        QuietNothing(before);
        assert Since(before, mid) == [];
      }
      assert Since(before, mid + [Ended(call, ending)]) == Since(before, mid) + [Ended(call, ending)];
      EndsRequest(Since(before, mid), proc, call, handler, ending);
    }

    static lemma EndsRequest(added: seq<Event>, proc: Option<nat>, call: Call, handler: Option<nat>, ending: Ending)
      requires ending.NoProcess? <==> proc.None?
      requires proc.None? ==> added == []
      requires PromptGens(added) == if call.SessionPrompt? && WasWritten(ending) then [proc.value] else []
      requires ending.Reply? ==> Answered(proc.value, call) in added
      requires proc.Some? ==> forall e :: e in added ==>
                                            || e == Wrote(proc.value, call, handler)
                                            || e == Answered(proc.value, call) || e == Gone(proc.value)
      ensures OneRequest(added + [Ended(call, ending)], proc, call, handler, ending)
    {
      var e := Ended(call, ending);
      PromptGensJoin(added, [e]);
      PromptGensSingle(e);
      LastEndingJoin(added, [e]);
      assert LastEnding([e]) == Some(ending);
      hide PromptGens, LastEnding;
      OneMore(added, e);
    }

    static lemma OneMore(added: seq<Event>, e: Event)
      ensures e in added + [e] && forall x :: x in added + [e] <==> x in added || x == e
    {
      assert (added + [e])[|added|] == e;
    }

    static lemma WrittenGens(before: seq<Event>, now: seq<Event>, gen: nat, call: Call, handler: Option<nat>,
                             ending: Ending)
      requires || now == before + Written(gen, call, handler, ending)
               || now == before + Written(gen, call, handler, ending) + [Gone(gen)]
      ensures before <= now
      ensures PromptGens(Since(before, now)) == if call.SessionPrompt? && WasWritten(ending) then [gen] else []
      ensures ending.Reply? ==> Answered(gen, call) in Since(before, now)
      ensures forall e :: e in Since(before, now) ==>
                            e == Wrote(gen, call, handler) || e == Answered(gen, call) || e == Gone(gen)
    {
      var written, wrote := Written(gen, call, handler, ending), Wrote(gen, call, handler);
      PromptGensSingle(wrote);
      PromptGensSingle(Answered(gen, call));
      PromptGensSingle(Gone(gen));
      PromptGensJoin([wrote], [Answered(gen, call)]);
      assert written == [] || written == [wrote] || written == [wrote] + [Answered(gen, call)];
      PromptGensJoin(written, [Gone(gen)]);
      assert PromptGens([]) == [];
      hide PromptGens;
      assert Since(before, now) == written || Since(before, now) == written + [Gone(gen)];
      OneMore(written, Gone(gen));
      assert ending.Reply? ==> written[1] == Answered(gen, call);
    }

    /** What a call that may start processes and write requests, but no prompt, leaves in order. */
    twostate predicate Kept()
      reads this
    {
      && cfg == old(cfg)
      && old(spawned) <= spawned && old(born) <= born
      && (forall k :: k in handlers ==> k in old(handlers) && handlers[k] == old(handlers)[k])
      && (proc.Some? ==> proc == old(proc) || proc.value >= old(spawned))
    }

    /** The rest of `start` once a process has been installed: initialize it and mark it connected. */
    method Handshake(cfgAtStart: Config) returns (fault: Option<Fault>)
      requires Valid() && !connected
      requires proc.Some? ==> born[proc.value] == cfgAtStart
      modifies this
      ensures Valid() && Kept() && spawned == old(spawned) && born == old(born)
      ensures sessions == old(sessions) || sessions == map[]
      ensures proc == old(proc) || proc.None?
      ensures fault.None? ==> connected && spawnedCfg == Some(cfgAtStart)
      ensures old(events) <= events
      ensures fault.None? ==> old(proc).Some? && Answered(old(proc).value, Initialize) in Since(old(events), events)
      ensures fault.Some? ==> proc.None? && !connected && !fault.value.NoRealModel? && !fault.value.SpawnFailed?
      ensures Quiet(old(events), events)
      ensures fault.Some? ==> !fault.value.NoSessionID? && Causes(Since(old(events), events), fault.value)
    {
      hide PromptGens, LastEnding;
      MayCrash(false);
      ghost var e1 := events;
      var r, ending := Request(Initialize);
      ghost var e2 := events;
      QuietTrans(old(events), e1, e2);
      if r.Err? {
        KillLocked();
        QuietTrans(old(events), e2, events);
        return Some(r.error);
      }
      MayCrash(false);
      QuietTrans(old(events), e2, events);
      GoneStays(old(events), e1, e2, events);
      connected := true;
      spawnedCfg := Some(cfgAtStart);
      fault := None;
    }

    method Start() returns (fault: Option<Fault>)
      requires Valid()
      modifies this
      ensures Valid() && Kept() && Quiet(old(events), events)
      ensures sessions == old(sessions) || sessions == map[]
      ensures fault == Some(NoRealModel) <==> cfg.baseURL == "" || "mock://" <= cfg.baseURL
      ensures fault.None? ==> Answered(old(spawned), Initialize) in Since(old(events), events)
      ensures fault == Some(NoRealModel) || fault == Some(SpawnFailed) ==> unchanged(this)
      ensures fault.None? ==> connected && spawnedCfg == Some(cfg)
      ensures fault.None? ==> spawned == old(spawned) + 1 && (proc == Some(old(spawned)) || proc.None?)
      ensures !unchanged(this) ==> born == old(born) + [cfg]
      ensures fault.Some? && !unchanged(this) ==> proc.None? && !connected
      ensures fault.Some? ==> Causes(Since(old(events), events), fault.value)
      ensures fault.None? ==> events != old(events)
    {
      hide PromptGens, LastEnding;
      QuietNothing(events);
      if NeedsNoProcess(cfg) {
        return Some(NoRealModel);
      }
      var spawnWorks: bool := *;
      if !spawnWorks {
        return Some(SpawnFailed);
      }
      QuietStep(events, Spawned(spawned));
      events, born := events + [Spawned(spawned)], born + [cfg];
      proc, connected := Some(spawned), false;
      spawned := spawned + 1;
      ghost var e1 := events;
      fault := Handshake(cfg);
      QuietTrans(old(events), e1, events);
      GoneStays(old(events), e1, events, events);
    }

    method EnsureStarted() returns (fault: Option<Fault>)
      requires Valid()
      modifies this
      ensures Valid() && Kept() && Quiet(old(events), events)
      ensures sessions == old(sessions) || sessions == map[]
      ensures old(proc).Some? && old(connected) ==> fault.None? && unchanged(this)
      ensures fault.None? ==> connected
      ensures fault.Some? ==> Causes(Since(old(events), events), fault.value)
      ensures !(old(proc).Some? && old(connected)) && fault.None? ==> events != old(events)
    {
      if proc.Some? && connected {
        QuietNothing(events);
        return None;
      }
      fault := Start();
    }

    /** Returns the peer's session for a local key, making one when there is none. */
    method SessionID(localKey: string) returns (r: Result<string, Fault>)
      requires Valid()
      modifies this
      ensures Valid() && Kept() && Quiet(old(events), events)
      ensures forall k :: k in sessions ==> k == localKey || (k in old(sessions) && sessions[k] == old(sessions)[k])
      ensures r.Ok? ==> r.value != ""
      ensures r.Ok? ==> sessions == map[] || (localKey in sessions && sessions[localKey] == r.value)
      ensures r.Ok? && events == old(events) ==> localKey in old(sessions) && r.value == old(sessions)[localKey]
      ensures r.Ok? ==> Knows(old(sessions), Since(old(events), events), localKey, r.value)
      ensures Sourced(sessions, old(sessions), Since(old(events), events))
      ensures old(proc).Some? && old(connected) && localKey in old(sessions)
              && Gone(old(proc).value) !in Since(old(events), events) ==>
                r == Ok(old(sessions)[localKey]) && events == old(events)
      ensures r.Err? ==> Causes(Since(old(events), events), r.error)
    {
      var fault := EnsureStarted();
      ghost var e1 := events;
      if fault.Some? {
        return Err(fault.value);
      }
      MayCrash(false);
      QuietTrans(old(events), e1, events);
      if localKey in sessions {
        return Ok(sessions[localKey]);
      }
      ghost var e2 := events;
      r := MakeSession(localKey);
      QuietTrans(old(events), e2, events);
      GoneStays(old(events), e1, e2, events);
      GoneStays(old(events), e2, events, events);
    }

    method AskForSession() returns (r: Result<string, Fault>)
      requires Valid()
      modifies this
      ensures Valid() && Kept() && Quiet(old(events), events)
      ensures spawned == old(spawned) && born == old(born) && (proc == old(proc) || proc.None?)
      ensures sessions == old(sessions) || sessions == map[]
      ensures r.Err? ==> Causes(Since(old(events), events), r.error) && LastEnding(Since(old(events), events)).Some?
      ensures r.Ok? ==> r.value != "" && Ended(NewSession, Reply(r.value)) in Since(old(events), events)
      ensures r.Ok? ==> !OptionSet(Since(old(events), events), r.value)
    {
      hide PromptGens, LastEnding;
      MayCrash(false);
      ghost var e1 := events;
      ghost var ending;
      r, ending := Request(NewSession);
      QuietTrans(old(events), e1, events);
      GoneStays(old(events), e1, events, events);
      if r.Ok? {
        NotYetSet(old(events), e1, events, r.value);
        if r.value == "" {
          return Err(NoSessionID);
        }
      }
    }

    method BypassPermissions(sid: string)
      requires Valid()
      modifies this
      ensures Valid() && Kept() && Quiet(old(events), events)
      ensures spawned == old(spawned) && born == old(born) && (proc == old(proc) || proc.None?)
      ensures sessions == old(sessions) || sessions == map[]
      ensures OptionSet(Since(old(events), events), sid)
    {
      hide PromptGens, LastEnding;
      var ignored, ending := Request(SetConfigOption(sid));
    }

    static lemma OptionStaysSet(a: seq<Event>, b: seq<Event>, c: seq<Event>, sid: string)
      requires a <= b <= c && OptionSet(Since(b, c), sid)
      ensures a <= c && OptionSet(Since(a, c), sid)
    {
      GoneStays(a, b, c, c);
    }

    /** The peer was asked to set an option of this session. */
    static ghost predicate OptionSet(events: seq<Event>, sid: string) {
      exists e :: e in events && e.Ended? && e.call == SetConfigOption(sid)
    }

    static lemma NotYetSet(a: seq<Event>, b: seq<Event>, c: seq<Event>, sid: string)
      requires a <= b <= c
      requires forall e :: e in Since(a, b) ==> !e.Ended?
      requires forall e :: e in Since(b, c) && e.Ended? ==> e.call == NewSession
      ensures a <= c && !OptionSet(Since(a, c), sid)
    {
      assert Since(a, c) == Since(a, b) + Since(b, c);
    }

    static lemma RecordedNow(a: seq<Event>, c: seq<Event>, key: string, sid: string)
      requires a <= c && Ended(NewSession, Reply(sid)) in Since(a, c) && !OptionSet(Since(a, c), sid)
      ensures a <= c + [Recorded(key, sid)]
      ensures var added := Since(a, c + [Recorded(key, sid)]);
              Recorded(key, sid) in added && Ended(NewSession, Reply(sid)) in added && !OptionSet(added, sid)
    {
      var e := Recorded(key, sid);
      assert Since(a, c + [e]) == Since(a, c) + [e];
      assert (Since(a, c) + [e])[|Since(a, c)|] == e;
    }

    /** The part of `SessionID` that asks the peer. The session is recorded whatever happened meanwhile. */
    method MakeSession(localKey: string) returns (r: Result<string, Fault>)
      requires Valid()
      modifies this
      ensures Valid() && Kept() && Quiet(old(events), events)
      ensures spawned == old(spawned) && born == old(born) && (proc == old(proc) || proc.None?)
      ensures forall k :: k in sessions ==> k == localKey || (k in old(sessions) && sessions[k] == old(sessions)[k])
      ensures r.Ok? ==> r.value != "" && events != old(events)
      ensures r.Err? ==> Causes(Since(old(events), events), r.error) && LastEnding(Since(old(events), events)).Some?
      ensures r.Ok? ==> sessions == map[] || (localKey in sessions && sessions[localKey] == r.value)
      ensures var added := Since(old(events), events);
              && (forall k :: k in sessions ==>
                    || (k in old(sessions) && sessions[k] == old(sessions)[k])
                    || (r.Ok? && k == localKey && sessions[k] == r.value))
              && (r.Ok? ==> Recorded(localKey, r.value) in added && Ended(NewSession, Reply(r.value)) in added)
              && (r.Ok? ==> (cfg.toolGuardMode == "bypass" <==> OptionSet(added, r.value)))
    {
      hide PromptGens, LastEnding, OptionSet, Causes;
      r := AskForSession();
      if r.Err? {
        return;
      }
      sessions := sessions[localKey := r.value];
      ghost var e3 := events;
      QuietStep(e3, Recorded(localKey, r.value));
      events := events + [Recorded(localKey, r.value)];
      QuietTrans(old(events), e3, events);
      RecordedNow(old(events), e3, localKey, r.value);
      if cfg.toolGuardMode == "bypass" {
        ghost var e4 := events;
        BypassPermissions(r.value);
        QuietTrans(old(events), e4, events);
        GoneStays(old(events), old(events), e4, events);
        OptionStaysSet(old(events), e4, events, r.value);
      }
    }

    /** Closes a session of the peer and forgets every key recorded for it, whatever the peer says. */
    method CloseSession(sid: string)
      requires Valid()
      modifies this
      ensures Valid() && Kept() && Quiet(old(events), events)
      ensures sessions == map[] ||
              sessions == map key | key in old(sessions) && old(sessions)[key] != sid :: old(sessions)[key]
      ensures sid !in handlers
      ensures exists ending :: Ended(Call.CloseSession(sid), ending) in Since(old(events), events)
    {
      var ignored, ending := Request(Call.CloseSession(sid));
      var kept: map<string, string> := map key | key in sessions && sessions[key] != sid :: sessions[key];
      sessions := kept;
      handlers := handlers - {sid};
    }

    method CloseSessionLocal(localKey: string)
      requires Valid()
      modifies this
      ensures Valid() && Kept() && Quiet(old(events), events)
      ensures localKey !in sessions
      ensures forall k :: k in sessions ==> k in old(sessions) && sessions[k] == old(sessions)[k]
      ensures localKey in old(sessions) ==> old(sessions)[localKey] !in handlers
    {
      if localKey !in sessions {
        QuietNothing(events);
        return;
      }
      CloseSession(sessions[localKey]);
    }

    /** One attempt at a prompt. The handler it registers is gone again when it returns. */
    method PromptOnce(localKey: string, message: string, handler: nat) returns (fault: Option<Fault>)
      requires Valid()
      modifies this
      ensures Valid() && Kept()
      ensures old(events) <= events && OneAttempt(Since(old(events), events), fault)
      ensures forall g :: g in PromptGens(Since(old(events), events)) ==> old(proc) == Some(g) || g >= old(spawned)
      ensures forall g :: g in PromptGens(Since(old(events), events)) ==> g < spawned
      ensures PromptsGoTo(Since(old(events), events), localKey, message, handler, old(sessions))
      ensures Sourced(sessions, old(sessions), Since(old(events), events))
    {
      hide PromptGens, LastEnding, AskedOnce, PromptsGoTo, Sourced;
      fault := PromptAttempt(localKey, message, handler);
      AskedThenNoted(old(events), events, fault);
      GoesOnNoting(old(events), events, fault, localKey, message, handler, old(sessions), sessions);
      events := events + [Attempted(fault)];
    }

    static lemma GoesOnNoting(before: seq<Event>, mid: seq<Event>, fault: Option<Fault>, key: string, message: string,
                              handler: nat, known: map<string, string>, now: map<string, string>)
      requires before <= mid && PromptsGoTo(Since(before, mid), key, message, handler, known)
      requires Sourced(now, known, Since(before, mid))
      ensures before <= mid + [Attempted(fault)]
      ensures PromptsGoTo(Since(before, mid + [Attempted(fault)]), key, message, handler, known)
      ensures Sourced(now, known, Since(before, mid + [Attempted(fault)]))
    {
      var e := Attempted(fault);
      PromptGensSingle(e);
      NoPromptsGoAnywhere([e], key, message, handler, map[]);
      PromptsGoOn(Since(before, mid), [e], key, message, handler, known, map[]);
      SourcedOn(Since(before, mid), [e], known, now, now);
      assert Since(before, mid + [e]) == Since(before, mid) + [e];
    }

    method PromptAttempt(localKey: string, message: string, handler: nat) returns (fault: Option<Fault>)
      requires Valid()
      modifies this
      ensures Valid() && Kept()
      ensures old(events) <= events
      ensures AskedOnce(Since(old(events), events), fault)
      ensures forall g :: g in PromptGens(Since(old(events), events)) ==>
                            (old(proc) == Some(g) || g >= old(spawned)) && g < spawned
      ensures PromptsGoTo(Since(old(events), events), localKey, message, handler, old(sessions))
      ensures Sourced(sessions, old(sessions), Since(old(events), events))
    {
      hide PromptGens, LastEnding, AskedOnce, Causes, PromptsGoTo, Sourced, Knows;
      var session := SessionID(localKey);
      NoPromptsGoAnywhere(Since(old(events), events), localKey, message, handler, old(sessions));
      if session.Err? {
        QuietFailure(old(events), events, session.error);
        return Some(session.error);
      }
      var sid := session.value;
      ghost var e1, sessions1 := events, sessions;
      fault := PromptSession(sid, message, handler, localKey);
      AskedLater(old(events), e1, events, fault);
      PromptsGoOn(Since(old(events), e1), Since(e1, events), localKey, message, handler,
                  old(sessions), map[localKey := sid]);
      FewerSourced(sessions1, sessions, Since(e1, events));
      SourcedOn(Since(old(events), e1), Since(e1, events), old(sessions), sessions1, sessions);
      assert Since(old(events), events) == Since(old(events), e1) + Since(e1, events);
    }

    static lemma FewerSourced(known: map<string, string>, now: map<string, string>, events: seq<Event>)
      requires now == known || now == map[]
      ensures Sourced(now, known, events)
    {
    }

    /** The rest of `promptOnce` once the session is known: the handler is there while the request runs. */
    method PromptSession(sid: string, message: string, handler: nat, ghost key: string) returns (fault: Option<Fault>)
      requires Valid()
      modifies this
      ensures Valid() && cfg == old(cfg) && spawned == old(spawned) && born == old(born)
      ensures proc == old(proc) || proc.None?
      ensures forall k :: k in handlers ==> k in old(handlers) && handlers[k] == old(handlers)[k]
      ensures sessions == old(sessions) || sessions == map[]
      ensures old(events) <= events && AskedOnce(Since(old(events), events), fault)
      ensures LastEnding(Since(old(events), events)).Some?
      ensures forall g :: g in PromptGens(Since(old(events), events)) ==> old(proc) == Some(g)
      ensures PromptsGoTo(Since(old(events), events), key, message, handler, map[key := sid])
    {
      hide PromptGens, LastEnding, AskedOnce, PromptsGoTo;
      SetHandler(sid, handler);
      ghost var e1 := events;
      fault := Ask(sid, message, handler, key);
      AskedLater(old(events), e1, events, fault);
      NoPromptsGoAnywhere(Since(old(events), e1), key, message, handler, map[key := sid]);
      PromptsGoOn(Since(old(events), e1), Since(e1, events), key, message, handler, map[key := sid], map[key := sid]);
      assert Since(old(events), events) == Since(old(events), e1) + Since(e1, events);
      handlers := handlers - {sid};
    }

    /** Registers a handler. The process may have crashed before, or may crash after. */
    method SetHandler(sid: string, handler: nat)
      requires Valid()
      modifies this
      ensures Valid() && cfg == old(cfg) && spawned == old(spawned) && born == old(born)
      ensures proc == old(proc) || proc.None?
      ensures forall k :: k in handlers ==> k == sid || (k in old(handlers) && handlers[k] == old(handlers)[k])
      ensures sessions == old(sessions) || sessions == map[]
      ensures proc.Some? ==> sid in handlers && handlers[sid] == handler
      ensures Quiet(old(events), events)
    {
      MayCrash(false);
      handlers := handlers[sid := handler];
      ghost var e1 := events;
      MayCrash(false);
      QuietTrans(old(events), e1, events);
    }

    /** The request of `promptOnce`, cancelled on the peer exactly when its context ends. */
    method Ask(sid: string, message: string, ghost handler: nat, ghost key: string) returns (fault: Option<Fault>)
      requires Valid() && (proc.Some? ==> sid in handlers && handlers[sid] == handler)
      modifies this
      ensures Valid() && cfg == old(cfg) && spawned == old(spawned) && born == old(born)
      ensures proc == old(proc) || proc.None?
      ensures forall k :: k in handlers ==> k in old(handlers) && handlers[k] == old(handlers)[k]
      ensures sessions == old(sessions) || sessions == map[]
      ensures old(events) <= events && AskedOnce(Since(old(events), events), fault)
      ensures LastEnding(Since(old(events), events)).Some?
      ensures forall g :: g in PromptGens(Since(old(events), events)) ==> old(proc) == Some(g)
      ensures PromptsGoTo(Since(old(events), events), key, message, handler, map[key := sid])
      ensures fault == Some(ContextEnded) ==>
                proc.None? || !connected || Wrote(proc.value, Cancel(sid), None) in Since(old(events), events)
      ensures fault != Some(ContextEnded) ==>
                forall e :: e in Since(old(events), events) && e.Wrote? ==> !e.call.Cancel?
    {
      hide PromptGens, LastEnding, AskedOnce, OneRequest, PromptsGoTo;
      var r, ending := Request(SessionPrompt(sid, message));
      RequestAsks(Since(old(events), events), old(proc), sid, message, handler, key, ending);
      if r.Ok? {
        return None;
      }
      if r.error.ContextEnded? {
        ghost var asked := events;
        Notify(Cancel(sid));
        AskedThenQuiet(old(events), asked, events, Some(r.error));
        NoPromptsGoAnywhere(Since(asked, events), key, message, handler, map[]);
        PromptsGoOn(Since(old(events), asked), Since(asked, events), key, message, handler, map[key := sid], map[]);
        assert Since(old(events), events) == Since(old(events), asked) + Since(asked, events);
      }
      fault := Some(r.error);
    }

    static lemma RequestAsks(added: seq<Event>, proc: Option<nat>, sid: string, message: string, handler: nat,
                             key: string, ending: Ending)
      requires ending.NoProcess? <==> proc.None?
      requires exists entry :: (proc.Some? ==> entry == Some(handler))
                               && OneRequest(added, proc, SessionPrompt(sid, message), entry, ending)
      ensures AskedOnce(added, FaultOf(ending)) && LastEnding(added).Some?
      ensures forall g :: g in PromptGens(added) ==> proc == Some(g)
      ensures PromptsGoTo(added, key, message, handler, map[key := sid])
      ensures forall e :: e in added && e.Wrote? ==> !e.call.Cancel?
    {
      hide PromptGens, LastEnding;
      var call := SessionPrompt(sid, message);
      if proc.Some? && ending.Reply? {
        assert Answered(proc.value, call).call.SessionPrompt?;
      }
    }

    /** A notification (JSON-RPC 2.0, section 4.1): nothing comes back. */
    method Notify(call: Call)
      requires Valid() && !call.SessionPrompt?
      modifies this
      ensures Valid() && cfg == old(cfg) && spawnedCfg == old(spawnedCfg)
      ensures spawned == old(spawned) && born == old(born)
      ensures proc == old(proc) && handlers == old(handlers) && sessions == old(sessions)
      ensures Quiet(old(events), events) && LastEnding(Since(old(events), events)).None?
      ensures proc.None? || !connected || Wrote(proc.value, call, None) in Since(old(events), events)
    {
      QuietNothing(events);
      if proc.None? {
        return;
      }
      var written: bool := *;
      if !written {
        connected := false;
        return;
      }
      ghost var note := Wrote(proc.value, call, None);
      PromptGensSingle(note);
      assert [note][..0] == [];
      assert Since(events, events + [note]) == [note];
      events := events + [note];
    }

    method Restart() returns (fault: Option<Fault>)
      requires Valid()
      modifies this
      ensures Valid() && Kept()
      ensures old(events) <= events && OneRestart(Since(old(events), events), fault)
      ensures proc.Some? ==> proc.value >= old(spawned)
      ensures fault.None? ==> connected && spawnedCfg == Some(cfg) && spawned == old(spawned) + 1
      ensures old(proc).Some? ==> Gone(old(proc).value) in Since(old(events), events)
      ensures fault.Some? ==> proc.None?
      ensures sessions == old(sessions) || sessions == map[]
    {
      hide PromptGens, LastEnding;
      KillLocked();
      ghost var e1 := events;
      assert old(proc).Some? ==> Since(old(events), e1) == [Gone(old(proc).value)];
      var contextEnded: bool := *;
      if contextEnded {
        fault := Some(ContextEnded);
      } else {
        fault := Start();
        QuietTrans(old(events), e1, events);
      }
      ghost var e2 := events;
      QuietStep(events, Restarted(fault));
      events := events + [Restarted(fault)];
      QuietTrans(old(events), e2, events);
      GoneStays(old(events), old(events), e1, events);
    }

    /**
     `Prompt`: at most two `session/prompt` messages, never two to one process, a retry exactly after
     a transport fault followed by a completed restart, and no handler of its own left behind.
     */
    method Prompt(localKey: string, message: string, handler: nat)
      returns (fault: Option<Fault>, ghost first: seq<Event>, ghost restart: seq<Event>, ghost second: seq<Event>)
      requires Valid()
      modifies this
      ensures Valid() && cfg == old(cfg)
      ensures events == old(events) + first + restart + second
      ensures PromptRun(first, restart, second, fault)
      ensures restart != [] <==> LastEnding(first).Some? && Retried(LastEnding(first).value)
      ensures forall g, h :: g in PromptGens(first) && h in PromptGens(second) ==> g < h
      ensures forall k :: k in handlers ==> k in old(handlers) && handlers[k] == old(handlers)[k]
      ensures PromptsGoTo(first + restart + second, localKey, message, handler, old(sessions))
    {
      hide PromptGens, AskedOnce, PromptsGoTo, Sourced;
      fault := PromptOnce(localKey, message, handler);
      first, restart, second := Since(old(events), events), [], [];
      assert first + restart + second == first;
      if fault == Some(Transport) {
        ghost var e1, sessions1 := events, sessions;
        var restartFault := Restart();
        restart := Since(e1, events);
        FewerSourced(sessions1, sessions, restart);
        SourcedOn(first, restart, old(sessions), sessions1, sessions);
        NoPromptsGoAnywhere(restart, localKey, message, handler, map[]);
        PromptsGoOn(first, restart, localKey, message, handler, old(sessions), map[]);
        if restartFault.Some? {
          RetriesExactlyAfter(first, restart, second, restartFault);
          assert first + restart + second == first + restart;
          return restartFault, first, restart, second;
        }
        ghost var e2, sessions2 := events, sessions;
        fault := PromptOnce(localKey, message, handler);
        second := Since(e2, events);
        EntryKnown(sessions2, old(sessions), first + restart, localKey);
        PromptsGoOn(first + restart, second, localKey, message, handler, old(sessions), sessions2);
      }
      RetriesExactlyAfter(first, restart, second, fault);
    }

    static lemma EntryKnown(now: map<string, string>, known: map<string, string>, events: seq<Event>, key: string)
      requires Sourced(now, known, events)
      ensures key in now ==> Knows(known, events, key, now[key])
    {
    }

    /**
     `SyncConfig`: the process is replaced exactly when its credentials are not the current ones, and
     afterwards whichever process is connected runs on the current credentials.
     */
    method SyncConfig()
      requires Valid()
      modifies this
      ensures Valid() && cfg == old(cfg)
      ensures var was := old(spawnedCfg);
              var stale := old(proc).Some? && was.Some?
                           && (cfg.baseURL != was.value.baseURL || cfg.apiKey != was.value.apiKey
                               || cfg.model != was.value.model);
              && (!stale ==> unchanged(this))
              && (stale ==> old(events) <= events && Gone(old(proc).value) in Since(old(events), events)
                            && proc != old(proc))
      ensures proc.Some? && connected ==>
                var now := born[proc.value];
                cfg.baseURL == now.baseURL && cfg.apiKey == now.apiKey && cfg.model == now.model
    {
      var needRestart := proc.Some? && spawnedCfg.Some? && !SameCredentials(cfg, spawnedCfg.value);
      if !needRestart {
        return;
      }
      var ignored := Restart();
    }
  }

  /** The engine's share in the sessions: which local key is active. */
  class Engine {
    const acp: ACPServer
    var activeSess: string

    constructor (acp: ACPServer)
      ensures this.acp == acp && activeSess == "default"
    {
      this.acp := acp;
      activeSess := "default";
    }

    /**
     Swaps the active key, closes the session of the old one and opens one for the new. Whatever fails,
     the old key has no session any more and the new key is the active one.
     */
    method NewSession(key: string) returns (r: Result<string, Fault>)
      requires acp.Valid()
      modifies this, acp
      ensures acp.Valid() && Quiet(old(acp.events), acp.events)
      ensures activeSess == key
      ensures old(activeSess) != "" && old(activeSess) != key ==> old(activeSess) !in acp.sessions
      ensures forall k :: k in acp.sessions && k != key ==>
                            k in old(acp.sessions) && acp.sessions[k] == old(acp.sessions)[k]
      ensures r.Ok? ==> r.value == key && (acp.sessions == map[] || key in acp.sessions)
    {
      var replaced := activeSess;
      activeSess := key;
      ghost var e1 := acp.events;
      QuietNothing(e1);
      if replaced != "" && replaced != key {
        acp.CloseSessionLocal(replaced);
      }
      ghost var e2 := acp.events;
      var session := acp.SessionID(key);
      QuietTrans(e1, e2, acp.events);
      if session.Err? {
        return Err(session.error);
      }
      r := Ok(key);
    }
  }
}
