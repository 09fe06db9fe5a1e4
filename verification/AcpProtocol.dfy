/**
 The JSON-RPC client as a protocol: any number of callers inside `request`, one reader loop and one
 watcher for every process ever spawned, and whoever restarts or stops the client, interleaved in
 any order. A step is one locked region of `AcpRegions` or one unlocked channel operation.
 */
module AcpProtocol {
  import opened Options
  import opened RequestKeys
  import opened AcpRegions

  /** How `request` ends for its caller. */
  datatype Outcome = Got(message: Message) | Cancelled | WriteFault

  /** `Leaving` is a caller whose context ended and who has yet to take the lock again. */
  datatype Caller = Waiting | Leaving | Done(outcome: Outcome)
  {
    predicate Open() {
      !Done?
    }
  }

  /** What a reader carries between the locked lookup of `dispatch` and its unlocked send. */
  datatype Delivery = Delivery(chan: nat, message: Message)

  datatype State = State(
    shared: Shared,
    spawned: nat,               // processes so far; they are numbered from 0
    held: map<nat, Delivery>,   // by the process whose reader loop is between lookup and send
    callers: map<nat, Caller>,  // by the id of their request
    sentTo: map<nat, nat>,      // the process a request was written to
    sends: map<nat, nat>,       // how many messages a channel was ever sent
    heard: set<Message>)        // the response lines read so far

  function Init(): State {
    State(Shared(None, 0, map[], map[], map[], map[], false), 0, map[], map[], map[], map[], {})
  }

  datatype Step =
    | Spawn
    | Begin(written: bool)
    | Read(reader: nat, id: nat, payload: Payload)
    | Deliver(reader: nat)
    | Receive(caller: nat)
    | ContextDone(caller: nat)
    | Abandon(caller: nat)
    | Exit(gen: nat)
    | Kill
    | Stop
    | Connect
    | Disconnect                             // a notification or permission reply failed to be written
    | RecordSession(key: string, sid: string)
    | SetHandler(sid: string, handler: nat)
    | DropHandler(sid: string)
    | DropSession(sid: string)

  /**
   The one assumption on the peer is in the case of `Read`: a process answers only ids that were
   written to it. It may answer one twice, late, or after it was replaced.
   */
  predicate Enabled(s: State, step: Step) {
    match step
    case Begin(_) => s.shared.proc.Some?
    case Read(g, id, _) => g < s.spawned && g !in s.held && id in s.sentTo && s.sentTo[id] == g
    // a send to a channel of capacity one blocks while the buffer is full
    case Deliver(g) => g in s.held && s.held[g].chan in s.shared.chans && s.shared.chans[s.held[g].chan] == []
    case Receive(c) => c in s.callers && s.callers[c].Waiting? && c in s.shared.chans && s.shared.chans[c] != []
    case ContextDone(c) => c in s.callers && s.callers[c].Waiting?
    case Abandon(c) => c in s.callers && s.callers[c].Leaving?
    case Exit(g) => g < s.spawned
    case _ => true
  }

  function Apply(s: State, step: Step): State
    requires Enabled(s, step)
  {
    match step
    case Spawn => s.(shared := s.shared.Install(s.spawned), spawned := s.spawned + 1)
    case Begin(written) => AfterBegin(s, written)
    case Read(g, id, payload) => AfterRead(s, g, id, payload)
    case Deliver(g) =>
      var d := s.held[g];
      s.(shared := s.shared.Send(d.chan, d.message), held := s.held - {g},
      sends := s.sends[d.chan := SendsTo(s, d.chan) + 1])
    case Receive(c) =>
      s.(shared := s.shared.Receive(c), callers := s.callers[c := Done(Got(s.shared.chans[c][0]))])
    case ContextDone(c) => s.(callers := s.callers[c := Leaving])
    case Abandon(c) =>
      s.(shared := s.shared.Forget(KeyOut(c)), callers := s.callers[c := Done(Cancelled)])
    case Exit(g) => AfterExit(s, g)
    case Kill => s.(shared := s.shared.Kill())
    case Stop => s.(shared := s.shared.Stop())
    case Connect => s.(shared := s.shared.(connected := true))
    case Disconnect => s.(shared := s.shared.(connected := false))
    case RecordSession(key, sid) => s.(shared := s.shared.(sessions := s.shared.sessions[key := sid]))
    case SetHandler(sid, h) => s.(shared := s.shared.(handlers := s.shared.handlers[sid := h]))
    case DropHandler(sid) => s.(shared := s.shared.(handlers := s.shared.handlers - {sid}))
    case DropSession(sid) => s.(shared := s.shared.DropSession(sid))
  }

  function SendsTo(s: State, c: nat): nat {
    if c in s.sends then s.sends[c] else 0
  }

  function AfterBegin(s: State, written: bool): State
    requires s.shared.proc.Some?
  {
    var sh := s.shared.Register(written);
    var id := sh.nextID;
    var begun := s.(shared := sh, callers := s.callers[id := if written then Waiting else Done(WriteFault)]);
    if written then begun.(sentTo := s.sentTo[id := s.shared.proc.value]) else begun
  }

  /** A reply whose entry is gone is dropped. */
  function AfterRead(s: State, g: nat, id: nat, payload: Payload): State {
    var m := FromPeer(g, id, payload);
    var chan := s.shared.Lookup(id);
    s.(shared := s.shared.Forget(KeyIn(id)), heard := s.heard + {m},
    held := if chan.Some? then s.held[g := Delivery(chan.value, m)] else s.held)
  }

  function AfterExit(s: State, g: nat): State {
    if s.shared.proc != Some(g) then s
    else s.(shared := s.shared.Exit(g),
    sends := map c | c in s.shared.chans :: SendsTo(s, c) + if DrainReaches(s, c) then 1 else 0)
  }

  /** The drain loop sends to c, rather than taking the default branch of its select. */
  predicate DrainReaches(s: State, c: nat) {
    c in s.shared.pending.Values && c in s.shared.chans && s.shared.chans[c] == []
  }

  ghost predicate Path(s: State, steps: seq<Step>, t: State)
    decreases |steps|
  {
    if steps == [] then s == t
    else Enabled(s, steps[0]) && Path(Apply(s, steps[0]), steps[1..], t)
  }

  ghost predicate Reachable(t: State) {
    exists steps :: Path(Init(), steps, t)
  }

  // --- The invariant ---------------------------------------------------------------------

  /** The three places a reply can be on its way to the caller of request c. */
  predicate Filed(s: State, c: nat) {
    KeyOut(c) in s.shared.pending
  }

  predicate InFlight(s: State, c: nat) {
    c in s.sentTo && s.sentTo[c] in s.held && s.held[s.sentTo[c]].chan == c
  }

  predicate Buffered(s: State, c: nat) {
    c in s.shared.chans && |s.shared.chans[c]| == 1
  }

  /** m may be handed to the caller of c: it is made up, or the reply of c's own process to c. */
  predicate Proper(s: State, c: nat, m: Message) {
    m == ProcessGone ||
    (c in s.sentTo && m.gen == s.sentTo[c] && m.id == c && m in s.heard && c < EXPONENT_FROM)
  }

  ghost predicate RequestOk(s: State, c: nat)
    requires c in s.callers
  {
    && 1 <= c <= s.shared.nextID
    && c in s.shared.chans
    && (s.callers[c].Open() ==> c in s.sentTo)
    && (Filed(s, c) ==> s.callers[c].Open() && s.shared.chans[c] == [] && SendsTo(s, c) == 0 && !InFlight(s, c))
    && (InFlight(s, c) ==> s.shared.chans[c] == [] && SendsTo(s, c) == 0)
    && |s.shared.chans[c]| <= SendsTo(s, c) <= 1
    && (s.shared.chans[c] != [] ==> Proper(s, c, s.shared.chans[c][0]))
    && (s.callers[c].Waiting? ==> Filed(s, c) || InFlight(s, c) || Buffered(s, c))
    && (s.callers[c].Done? && s.callers[c].outcome.Got? ==> Proper(s, c, s.callers[c].outcome.message))
  }

  ghost predicate EntryOk(s: State, key: string)
    requires key in s.shared.pending
  {
    s.shared.pending[key] in s.callers && key == KeyOut(s.shared.pending[key])
  }

  ghost predicate HolderOk(s: State, g: nat)
    requires g in s.held
  {
    var d := s.held[g];
    d.chan in s.sentTo && s.sentTo[d.chan] == g && d.message.FromPeer? && Proper(s, d.chan, d.message)
  }

  /** A reply that was read before its caller left is on its way to the caller, or was never looked up. */
  ghost predicate HeardOk(s: State, m: Message) {
    m.FromPeer? && m.id in s.sentTo && (m.id < EXPONENT_FROM ==> !Filed(s, m.id))
  }

  ghost predicate Inv(s: State) {
    && s.shared.chans.Keys == s.callers.Keys && s.sends.Keys <= s.callers.Keys
    && (s.shared.proc.Some? ==> s.shared.proc.value < s.spawned)
    && (forall c :: c in s.sentTo ==> c in s.callers && s.sentTo[c] < s.spawned)
    && (forall c {:trigger RequestOk(s, c)} :: c in s.callers ==> RequestOk(s, c))
    && (forall key {:trigger EntryOk(s, key)} :: key in s.shared.pending ==> EntryOk(s, key))
    && (forall g {:trigger HolderOk(s, g)} :: g in s.held ==> HolderOk(s, g))
    && (forall m {:trigger HeardOk(s, m)} :: m in s.heard ==> HeardOk(s, m))
  }

  /** Entries, deliveries and replies heard stay in order when a step adds to none of them. */
  lemma EntriesKept(s: State, t: State)
    requires Inv(s)
    requires t.callers.Keys == s.callers.Keys && t.sentTo == s.sentTo && t.heard == s.heard
    requires forall key :: key in t.shared.pending ==>
                             key in s.shared.pending && t.shared.pending[key] == s.shared.pending[key]
    requires forall g :: g in t.held ==> g in s.held && t.held[g] == s.held[g]
    ensures forall key {:trigger EntryOk(t, key)} :: key in t.shared.pending ==> EntryOk(t, key)
    ensures forall g {:trigger HolderOk(t, g)} :: g in t.held ==> HolderOk(t, g)
    ensures forall m {:trigger HeardOk(t, m)} :: m in t.heard ==> HeardOk(t, m)
  {
    forall key | key in t.shared.pending
      ensures EntryOk(t, key)
    {
      assert EntryOk(s, key);
    }
    forall g | g in t.held
      ensures HolderOk(t, g)
    {
      assert HolderOk(s, g);
    }
    forall m | m in t.heard
      ensures HeardOk(t, m)
    {
      assert HeardOk(s, m);
    }
  }

  lemma NewKey(s: State)
    requires Inv(s)
    ensures s.shared.nextID + 1 !in s.callers && s.shared.nextID + 1 !in s.sentTo && !Filed(s, s.shared.nextID + 1)
  {
    var id := s.shared.nextID + 1;
    assert id in s.callers ==> RequestOk(s, id);
    assert Filed(s, id) ==> EntryOk(s, KeyOut(id));
    if Filed(s, id) {
      FiledIsOwn(s, id);
    }
  }

  lemma BeginRequests(s: State, written: bool)
    requires Inv(s) && s.shared.proc.Some?
    ensures forall c :: c in AfterBegin(s, written).callers ==> RequestOk(AfterBegin(s, written), c)
  {
    var t := AfterBegin(s, written);
    var id := t.shared.nextID;
    NewKey(s);
    assert s.shared.proc.value in s.held ==> HolderOk(s, s.shared.proc.value);
    forall c | c in t.callers
      ensures RequestOk(t, c)
    {
      KeyOutInjective(c, id);
      assert c != id ==> RequestOk(s, c);
    }
  }

  lemma BeginEntries(s: State, written: bool)
    requires Inv(s) && s.shared.proc.Some?
    ensures var t := AfterBegin(s, written);
            && (forall key {:trigger EntryOk(t, key)} :: key in t.shared.pending ==> EntryOk(t, key))
            && (forall g {:trigger HolderOk(t, g)} :: g in t.held ==> HolderOk(t, g))
  {
    hide RequestOk, HeardOk;
    var t := AfterBegin(s, written);
    NewKey(s);
    forall key | key in t.shared.pending
      ensures EntryOk(t, key)
    {
      if key != KeyOut(t.shared.nextID) {
        assert EntryOk(s, key);
      }
    }
    forall g | g in t.held
      ensures HolderOk(t, g)
    {
      assert HolderOk(s, g);
    }
  }

  lemma BeginHeard(s: State, written: bool)
    requires Inv(s) && s.shared.proc.Some?
    ensures var t := AfterBegin(s, written);
            forall m {:trigger HeardOk(t, m)} :: m in t.heard ==> HeardOk(t, m)
  {
    hide RequestOk, EntryOk, HolderOk;
    var t := AfterBegin(s, written);
    NewKey(s);
    forall m | m in t.heard
      ensures HeardOk(t, m)
    {
      assert HeardOk(s, m);
      KeyOutInjective(m.id, t.shared.nextID);
    }
  }

  lemma BeginTables(s: State, written: bool)
    requires Inv(s) && s.shared.proc.Some?
    ensures var t := AfterBegin(s, written);
            && t.shared.chans.Keys == t.callers.Keys && t.sends.Keys <= t.callers.Keys
            && t.shared.proc.Some? && t.shared.proc.value < t.spawned
            && (forall c :: c in t.sentTo ==> c in t.callers && t.sentTo[c] < t.spawned)
  {
    hide RequestOk, EntryOk, HolderOk, HeardOk;
  }

  lemma BeginKeeps(s: State, written: bool)
    requires Inv(s) && s.shared.proc.Some?
    ensures Inv(AfterBegin(s, written))
  {
    hide AfterBegin, RequestOk, EntryOk, HolderOk, HeardOk;
    BeginTables(s, written);
    BeginRequests(s, written);
    BeginEntries(s, written);
    BeginHeard(s, written);
  }

  /** A reply takes an entry exactly when it answers a filed request with an id below one million. */
  lemma ReadTakes(s: State, id: nat)
    requires Inv(s)
    ensures KeyIn(id) in s.shared.pending <==> Filed(s, id) && id < EXPONENT_FROM
    ensures KeyIn(id) in s.shared.pending ==> s.shared.pending[KeyIn(id)] == id
  {
    KeysAgreeIff(id, id);
    if KeyIn(id) in s.shared.pending {
      assert EntryOk(s, KeyIn(id));
      KeysAgreeIff(s.shared.pending[KeyIn(id)], id);
    }
  }

  lemma ReadRequests(s: State, g: nat, id: nat, payload: Payload)
    requires Inv(s) && Enabled(s, Read(g, id, payload))
    ensures forall c :: c in AfterRead(s, g, id, payload).callers ==> RequestOk(AfterRead(s, g, id, payload), c)
  {
    var t := AfterRead(s, g, id, payload);
    ReadTakes(s, id);
    forall c | c in t.callers
      ensures RequestOk(t, c)
    {
      KeysAgreeIff(c, id);
      assert RequestOk(s, c);
    }
  }

  lemma ReadKeeps(s: State, g: nat, id: nat, payload: Payload)
    requires Inv(s) && Enabled(s, Read(g, id, payload))
    ensures Inv(AfterRead(s, g, id, payload))
  {
    var t := AfterRead(s, g, id, payload);
    ReadRequests(s, g, id, payload);
    ReadTakes(s, id);
    forall key | key in t.shared.pending
      ensures EntryOk(t, key)
    {
      assert EntryOk(s, key);
    }
    forall h | h in t.held
      ensures HolderOk(t, h)
    {
      if h in s.held {
        assert HolderOk(s, h);
      }
    }
    KeysAgreeIff(id, id);
    forall m | m in t.heard
      ensures HeardOk(t, m)
    {
      if m in s.heard {
        assert HeardOk(s, m);
      }
    }
  }

  lemma DeliverKeeps(s: State, g: nat)
    requires Inv(s) && Enabled(s, Deliver(g))
    ensures Inv(Apply(s, Deliver(g)))
  {
    var t := Apply(s, Deliver(g));
    assert HolderOk(s, g);
    assert RequestOk(s, s.held[g].chan);
    forall c | c in t.callers
      ensures RequestOk(t, c)
    {
      assert RequestOk(s, c);
    }
    EntriesKept(s, t);
  }

  lemma ExitRequest(s: State, g: nat, c: nat)
    requires Inv(s) && s.shared.proc == Some(g) && c in s.callers
    ensures RequestOk(AfterExit(s, g), c)
  {
    hide HolderOk, HeardOk;
    assert RequestOk(s, c);
    if c in s.shared.pending.Values {
      var key :| key in s.shared.pending && s.shared.pending[key] == c;
      assert EntryOk(s, key);
      assert Filed(s, c);
    }
    if Filed(s, c) {
      FiledIsOwn(s, c);
      assert s.shared.pending[KeyOut(c)] in s.shared.pending.Values;
    }
  }

  lemma ExitKeeps(s: State, g: nat)
    requires Inv(s)
    ensures Inv(AfterExit(s, g))
  {
    if s.shared.proc == Some(g) {
      hide RequestOk, EntryOk, HolderOk, HeardOk;
      var t := AfterExit(s, g);
      forall c | c in t.callers
        ensures RequestOk(t, c)
      {
        ExitRequest(s, g, c);
      }
      EntriesKept(s, t);
    }
  }

  lemma FiledIsOwn(s: State, c: nat)
    requires Inv(s) && Filed(s, c)
    ensures s.shared.pending[KeyOut(c)] == c
  {
    assert EntryOk(s, KeyOut(c));
    KeyOutInjective(c, s.shared.pending[KeyOut(c)]);
  }

  /** The steps of a caller that leave `request`. */
  lemma CallerStepRequest(s: State, step: Step, c: nat)
    requires Inv(s) && Enabled(s, step) && c in Apply(s, step).callers
    requires step.Receive? || step.ContextDone? || step.Abandon?
    ensures RequestOk(Apply(s, step), c)
  {
    hide EntryOk, HolderOk, HeardOk;
    KeyOutInjective(c, step.caller);
    assert RequestOk(s, step.caller);
    assert RequestOk(s, c);
  }

  /** Where a step of a caller leaves the tables. */
  lemma CallerStepTables(s: State, step: Step)
    requires Inv(s) && Enabled(s, step)
    requires step.Receive? || step.ContextDone? || step.Abandon?
    ensures var t := Apply(s, step);
            && t.callers.Keys == s.callers.Keys == t.shared.chans.Keys
            && t.sentTo == s.sentTo && t.heard == s.heard && t.held == s.held && t.sends == s.sends
            && t.shared.proc == s.shared.proc && t.spawned == s.spawned
            && (forall key :: key in t.shared.pending ==>
                  key in s.shared.pending && t.shared.pending[key] == s.shared.pending[key])
  {
    hide RequestOk, EntryOk, HolderOk, HeardOk;
  }

  lemma CallerStepKeeps(s: State, step: Step)
    requires Inv(s) && Enabled(s, step)
    requires step.Receive? || step.ContextDone? || step.Abandon?
    ensures Inv(Apply(s, step))
  {
    hide Enabled, Apply, RequestOk, EntryOk, HolderOk, HeardOk;
    var t := Apply(s, step);
    CallerStepTables(s, step);
    forall c | c in t.callers
      ensures RequestOk(t, c)
    {
      CallerStepRequest(s, step, c);
    }
    EntriesKept(s, t);
  }

  /** A step that leaves ids, entries, channels and callers alone. */
  lemma TablesOnly(s: State, t: State)
    requires Inv(s)
    requires t == s.(shared := t.shared, spawned := t.spawned) && t.spawned >= s.spawned
    requires t.shared.pending == s.shared.pending && t.shared.chans == s.shared.chans
    requires t.shared.nextID == s.shared.nextID
    requires t.shared.proc.Some? ==> t.shared.proc.value < t.spawned
    ensures Inv(t)
  {
    forall c | c in t.callers
      ensures RequestOk(t, c)
    {
      assert RequestOk(s, c);
    }
    EntriesKept(s, t);
  }

  lemma StepKeeps(s: State, step: Step)
    requires Inv(s) && Enabled(s, step)
    ensures Inv(Apply(s, step))
  {
    match step
    case Begin(written) => BeginKeeps(s, written);
    case Read(g, id, payload) => ReadKeeps(s, g, id, payload);
    case Deliver(g) => DeliverKeeps(s, g);
    case Exit(g) => ExitKeeps(s, g);
    case Receive(_) => CallerStepKeeps(s, step);
    case ContextDone(_) => CallerStepKeeps(s, step);
    case Abandon(_) => CallerStepKeeps(s, step);
    case _ => TablesOnly(s, Apply(s, step));
  }

  lemma {:induction false} PathKeeps(s: State, steps: seq<Step>, t: State)
    requires Inv(s) && Path(s, steps, t)
    ensures Inv(t)
    decreases |steps|
  {
    if steps != [] {
      StepKeeps(s, steps[0]);
      PathKeeps(Apply(s, steps[0]), steps[1..], t);
    }
  }

  lemma ReachableInv(t: State)
    requires Reachable(t)
    ensures Inv(t)
  {
    var steps :| Path(Init(), steps, t);
    PathKeeps(Init(), steps, t);
  }
}
