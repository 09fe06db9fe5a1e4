/**
 The state that callers, reader loops and process watchers of the ACP client share under one mutex,
 and what each locked region does to it.

 `Shared` is that state as a value. The class `ACPServer` performs the regions on mutable fields,
 drain loops included, and each method equates its effect with a function on `Shared`; the protocol
 module reasons about interleavings of those functions.
 */
module AcpRegions {
  import opened Options
  import opened RequestKeys

  const PROCESS_GONE_CODE := -32001

  /** The result or error member of a JSON-RPC 2.0 response object (section 5). */
  datatype Payload = Success(result: string) | Failure(code: int)

  /** A response line of process `gen`, or the reply a watcher makes up for a process that exited. */
  datatype Message = FromPeer(gen: nat, id: nat, payload: Payload) | ProcessGone
  {
    function Body(): Payload {
      match this
      case FromPeer(_, _, payload) => payload
      case ProcessGone => Failure(PROCESS_GONE_CODE)
    }
  }

  /** The channels once every filed one that is empty has got a made-up reply. */
  function AllDrained(filed: map<string, nat>, chans: map<nat, seq<Message>>): map<nat, seq<Message>> {
    map c | c in chans :: if c in filed.Values && chans[c] == [] then [ProcessGone] else chans[c]
  }

  /** A channel is named by the id of the request that made it; it buffers at most one message. */
  datatype Shared = Shared(
    proc: Option<nat>,
    nextID: nat,
    pending: map<string, nat>,
    chans: map<nat, seq<Message>>,
    sessions: map<string, string>,
    handlers: map<string, nat>,
    connected: bool)
  {
    ghost predicate WellFormed() {
      forall key :: key in pending ==> pending[key] in chans
    }

    /** `start` installs a freshly spawned process. */
    function Install(gen: nat): Shared {
      this.(proc := Some(gen), connected := false)
    }

    /** `request` without a process is refused and leaves everything as it is. */
    function Request(written: bool): Shared {
      if proc.None? then this else Register(written)
    }

    /** With one it takes an id, files a channel and writes; `written` says whether the write worked. */
    function Register(written: bool): Shared {
      var id := nextID + 1;
      var filed := this.(nextID := id, pending := pending[KeyOut(id) := id], chans := chans[id := []]);
      if written then filed else filed.(pending := filed.pending - {KeyOut(id)}, connected := false)
    }

    /** `dispatch` looks a reply up and forgets its entry in one region. */
    function Lookup(id: nat): Option<nat> {
      if KeyIn(id) in pending then Some(pending[KeyIn(id)]) else None
    }

    function Forget(key: string): Shared {
      this.(pending := pending - {key})
    }

    function Send(chan: nat, m: Message): Shared
      requires chan in chans
    {
      this.(chans := chans[chan := chans[chan] + [m]])
    }

    function Receive(chan: nat): Shared
      requires chan in chans && chans[chan] != []
    {
      this.(chans := chans[chan := chans[chan][1..]])
    }

    /** What the watcher of `gen` does once its process has exited. */
    function Exit(gen: nat): Shared {
      if proc == Some(gen) then
        this.(proc := None, connected := false, sessions := map[], handlers := map[], pending := map[],
        chans := AllDrained(pending, chans))
      else this
    }

    /** `killLocked`: the entries of `pending` stay. */
    function Kill(): Shared {
      if proc.None? then this
      else this.(proc := None, connected := false, sessions := map[], handlers := map[])
    }

    function Stop(): Shared {
      Kill().(sessions := map[], handlers := map[])
    }

    /** The tables after `CloseSession` has forgotten a session of the peer. */
    function DropSession(sid: string): Shared {
      this.(sessions := map key | key in sessions && sessions[key] != sid :: sessions[key],
      handlers := handlers - {sid})
    }
  }

  /** A channel whose entry has been drained: filed at first and not left any more. */
  ghost predicate Drained(filed: map<string, nat>, left: map<string, nat>, c: nat) {
    exists k :: k in filed && k !in left && filed[k] == c
  }

  ghost function Refill(now: seq<Message>, drained: bool): seq<Message> {
    if drained && now == [] then [ProcessGone] else now
  }

  /** How far the drain loop has come, as a relation between the tables at its start and now. */
  ghost predicate DrainProgress(filed: map<string, nat>, left: map<string, nat>,
                                was: map<nat, seq<Message>>, now: map<nat, seq<Message>>) {
    && left.Keys <= filed.Keys
    && (forall k :: k in left ==> left[k] == filed[k])
    && (forall k :: k in filed ==> filed[k] in was)
    && now.Keys == was.Keys
    && (forall c :: c in was ==> now[c] == Refill(was[c], Drained(filed, left, c)))
  }

  lemma DrainStep(filed: map<string, nat>, left: map<string, nat>,
                  was: map<nat, seq<Message>>, now: map<nat, seq<Message>>, key: string)
    requires DrainProgress(filed, left, was, now) && key in left
    ensures DrainProgress(filed, left - {key}, was,
                          if now[left[key]] == [] then now[left[key] := [ProcessGone]] else now)
  {
    var rest := left - {key};
    forall c
      ensures Drained(filed, rest, c) <==> Drained(filed, left, c) || c == left[key]
    {
      if Drained(filed, left, c) {
        var k :| k in filed && k !in left && filed[k] == c;
        assert k !in rest;
      }
      if c == left[key] {
        assert key in filed && key !in rest;
      }
    }
  }

  lemma DrainDone(filed: map<string, nat>, was: map<nat, seq<Message>>, now: map<nat, seq<Message>>)
    requires DrainProgress(filed, map[], was, now)
    ensures now == AllDrained(filed, was)
  {
    var empty: map<string, nat> := map[];
    forall c
      ensures Drained(filed, empty, c) <==> c in filed.Values
    {
      if c in filed.Values {
        var k :| k in filed && filed[k] == c;
        assert k !in empty;
      }
    }
  }

  class ACPServer {
    var proc: Option<nat>
    var nextID: nat
    var pending: map<string, nat>
    var chans: map<nat, seq<Message>>
    var sessions: map<string, string>
    var handlers: map<string, nat>
    var connected: bool

    ghost function State(): Shared
      reads this
    {
      Shared(proc, nextID, pending, chans, sessions, handlers, connected)
    }

    constructor ()
      ensures State() == Shared(None, 0, map[], map[], map[], map[], false)
    {
      proc, nextID, connected := None, 0, false;
      pending, chans, sessions, handlers := map[], map[], map[], map[];
    }

    method Install(gen: nat)
      modifies this
      ensures State() == old(State()).Install(gen)
    {
      proc := Some(gen);
      connected := false;
    }

    /** The first locked region of `request`. */
    method Request(written: bool) returns (id: Option<nat>)
      modifies this
      ensures State() == old(State()).Request(written)
      ensures id == if old(proc).None? then None else Some(nextID)
    {
      if proc.None? {
        return None;
      }
      nextID := nextID + 1;
      id := Some(nextID);
      chans := chans[nextID := []];
      pending := pending[KeyOut(nextID) := nextID];
      if !written {
        connected := false;
        pending := pending - {KeyOut(nextID)};
      }
    }

    /** The locked region of `dispatch`. */
    method Take(id: nat) returns (chan: Option<nat>)
      modifies this
      ensures chan == old(State()).Lookup(id)
      ensures State() == old(State()).Forget(KeyIn(id))
    {
      chan := if KeyIn(id) in pending then Some(pending[KeyIn(id)]) else None;
      pending := pending - {KeyIn(id)};
    }

    method Abandon(id: nat)
      modifies this
      ensures State() == old(State()).Forget(KeyOut(id))
    {
      pending := pending - {KeyOut(id)};
    }

    /** The locked region of `watchProc`, with its drain loop and non-blocking sends. */
    method WatchExit(gen: nat)
      requires State().WellFormed()
      modifies this
      ensures State() == old(State()).Exit(gen)
    {
      if proc == Some(gen) {
        proc := None;
        connected := false;
        sessions := map[];
        handlers := map[];
        Drain();
      }
    }

    /** The loop of `watchProc`: a non-blocking send to every filed channel. */
    method Drain()
      requires forall key :: key in pending ==> pending[key] in chans
      modifies this`pending, this`chans
      ensures pending == map[]
      ensures chans == AllDrained(old(pending), old(chans))
    {
      ghost var filed, was := pending, chans;
      while pending != map[]
        invariant DrainProgress(filed, pending, was, chans)
        decreases |pending|
      {
        var key :| key in pending;
        var ch := pending[key];
        DrainStep(filed, pending, was, chans, key);
        if chans[ch] == [] {
          chans := chans[ch := [ProcessGone]];
        }
        pending := pending - {key};
      }
      DrainDone(filed, was, chans);
    }

    method Kill()
      modifies this
      ensures State() == old(State()).Kill()
    {
      if proc.None? {
        return;
      }
      proc := None;
      connected := false;
      sessions := map[];
      handlers := map[];
    }

    /** The last region of `CloseSession`: the table is pruned while it is being walked. */
    method DropSession(sid: string)
      modifies this
      ensures State() == old(State()).DropSession(sid)
    {
      ghost var was := sessions;
      var todo := sessions.Keys;
      while todo != {}
        invariant todo <= was.Keys
        invariant sessions == map key | key in was && (key in todo || was[key] != sid) :: was[key]
        invariant handlers == old(handlers)
        invariant proc == old(proc) && nextID == old(nextID) && pending == old(pending)
        invariant chans == old(chans) && connected == old(connected)
        decreases todo
      {
        var key :| key in todo;
        if sessions[key] == sid {
          sessions := sessions - {key};
        }
        todo := todo - {key};
      }
      handlers := handlers - {sid};
    }
  }
}
