/**
 What the interleavings of `AcpProtocol` guarantee: every statement is about all reachable states,
 that is, about every number of callers, every crash and restart, and every order of their steps.
 */
module AcpGuarantees {
  import opened Options
  import opened RequestKeys
  import opened AcpRegions
  import opened AcpProtocol

  predicate ExactlyOne(a: bool, b: bool, c: bool) {
    (a && !b && !c) || (!a && b && !c) || (!a && !b && c)
  }

  /**
   The reply of a waiting caller is in exactly one place: still to be looked up, carried by one
   reader, or buffered. No channel is sent two messages, and no two readers send to one channel.
   */
  lemma NoLostOrDoubledReply(s: State)
    requires Reachable(s)
    ensures forall c :: c in s.callers && s.callers[c].Waiting? ==>
                          ExactlyOne(Filed(s, c), InFlight(s, c), Buffered(s, c))
    ensures forall c :: SendsTo(s, c) <= 1
    ensures forall g, h :: g in s.held && h in s.held && s.held[g].chan == s.held[h].chan ==> g == h
  {
    ReachableInv(s);
    forall c | c in s.callers && s.callers[c].Waiting?
      ensures ExactlyOne(Filed(s, c), InFlight(s, c), Buffered(s, c))
    {
      assert RequestOk(s, c);
    }
    forall c
      ensures SendsTo(s, c) <= 1
    {
      assert c in s.callers ==> RequestOk(s, c);
    }
    forall g, h | g in s.held && h in s.held && s.held[g].chan == s.held[h].chan
      ensures g == h
    {
      assert HolderOk(s, g) && HolderOk(s, h);
    }
  }

  /** The unlocked send of `dispatch` never blocks a reader. */
  lemma SendNeverBlocks(s: State, g: nat)
    requires Reachable(s) && g in s.held
    ensures Enabled(s, Deliver(g))
  {
    ReachableInv(s);
    assert HolderOk(s, g);
    assert RequestOk(s, s.held[g].chan);
  }

  /** The default branch of the drain loop is never taken. */
  lemma DrainReachesEveryEntry(s: State, key: string)
    requires Reachable(s) && key in s.shared.pending
    ensures DrainReaches(s, s.shared.pending[key])
  {
    ReachableInv(s);
    assert EntryOk(s, key);
    assert RequestOk(s, s.shared.pending[key]);
  }

  /**
   A caller that got a reply of the peer got the reply to its own id, read from the process its
   request was written to. So a late line of a replaced process completes no newer request.
   */
  lemma CorrelationAcrossRestarts(s: State, c: nat, m: Message)
    requires Reachable(s) && c in s.callers && s.callers[c] == Done(Got(m)) && m.FromPeer?
    ensures m.id == c && m in s.heard
    ensures c in s.sentTo && m.gen == s.sentTo[c]
    ensures c < EXPONENT_FROM
  {
    ReachableInv(s);
    assert RequestOk(s, c);
  }

  /** Ids are never reused and a request never changes the process it was written to. */
  lemma StepGrows(s: State, step: Step)
    requires Inv(s) && Enabled(s, step)
    ensures s.shared.nextID <= Apply(s, step).shared.nextID && s.spawned <= Apply(s, step).spawned
    ensures forall c :: c in s.sentTo ==> c in Apply(s, step).sentTo && Apply(s, step).sentTo[c] == s.sentTo[c]
  {
    if step.Begin? {
      NewKey(s);
    }
  }

  lemma {:induction false} IdsOnlyGrow(s: State, steps: seq<Step>, t: State)
    requires Inv(s) && Path(s, steps, t)
    ensures s.shared.nextID <= t.shared.nextID && s.spawned <= t.spawned
    ensures forall c :: c in s.sentTo ==> c in t.sentTo && t.sentTo[c] == s.sentTo[c]
    decreases |steps|
  {
    if steps != [] {
      StepKeeps(s, steps[0]);
      StepGrows(s, steps[0]);
      IdsOnlyGrow(Apply(s, steps[0]), steps[1..], t);
    }
  }

  /** A reply line finds its caller's channel exactly when the request is filed and its id renders alike. */
  lemma {:induction false} ReplyTakenIff(s: State, g: nat, id: nat, payload: Payload)
    requires Reachable(s) && Enabled(s, Read(g, id, payload))
    ensures InFlight(AfterRead(s, g, id, payload), id) <==> Filed(s, id) && id < EXPONENT_FROM
    ensures Filed(AfterRead(s, g, id, payload), id) <==> Filed(s, id) && id >= EXPONENT_FROM
  {
    ReachableInv(s);
    ReadTakes(s, id);
    KeysAgreeIff(id, id);
  }

  /**
   Once the reply to a waiting request with an id below one million has been read, it has left
   `pending`: it is carried by its reader, whose send is enabled, or buffered for its caller.
   */
  lemma ReadReplyArrives(s: State, c: nat, m: Message)
    requires Reachable(s) && c in s.callers && s.callers[c].Waiting?
    requires m in s.heard && m.FromPeer? && m.id == c && c < EXPONENT_FROM
    ensures InFlight(s, c) || Buffered(s, c)
    ensures InFlight(s, c) ==> Enabled(s, Deliver(s.sentTo[c])) && Buffered(Apply(s, Deliver(s.sentTo[c])), c)
    ensures Buffered(s, c) ==> Enabled(s, Receive(c)) && Apply(s, Receive(c)).callers[c].Done?
  {
    ReachableInv(s);
    assert HeardOk(s, m);
    assert RequestOk(s, c);
    if InFlight(s, c) {
      SendNeverBlocks(s, s.sentTo[c]);
    }
  }

  /**
   When the watcher of the current process fires, every filed request gets a process-gone reply
   whichever process it was written to, and all tables end empty.
   */
  lemma CrashDrain(s: State, g: nat)
    requires Reachable(s) && s.shared.proc == Some(g)
    ensures var t := AfterExit(s, g);
            && t.shared.proc == None && !t.shared.connected
            && t.shared.pending == map[] && t.shared.sessions == map[] && t.shared.handlers == map[]
            && t.callers == s.callers && t.held == s.held
    ensures var t := AfterExit(s, g);
            forall c :: c in s.callers ==>
                          c in t.shared.chans &&
                          t.shared.chans[c] == if Filed(s, c) then [ProcessGone] else s.shared.chans[c]
  {
    ReachableInv(s);
    forall c | c in s.callers
      ensures c in s.shared.chans
      ensures AfterExit(s, g).shared.chans[c] == if Filed(s, c) then [ProcessGone] else s.shared.chans[c]
    {
      assert RequestOk(s, c);
      if Filed(s, c) {
        FiledIsOwn(s, c);
        assert s.shared.pending[KeyOut(c)] in s.shared.pending.Values;
      }
      if c in s.shared.pending.Values {
        var key :| key in s.shared.pending && s.shared.pending[key] == c;
        assert EntryOk(s, key);
      }
    }
  }

  /**
   What `Kill` and `Stop` leave. Killing a process clears what belonged to it, and neither touches a
   request: entries, channels, callers and ids stay, and so does what readers are carrying.
   */
  lemma KillLeaves(s: State)
    ensures var t := Apply(s, Kill);
            && t.shared.proc == None
            && (s.shared.proc.None? ==> t == s)
            && (s.shared.proc.Some? ==>
                  !t.shared.connected && t.shared.sessions == map[] && t.shared.handlers == map[])
    ensures var t := Apply(s, Stop);
            && t.shared.proc == None && t.shared.sessions == map[] && t.shared.handlers == map[]
            && t.shared.connected == (s.shared.connected && s.shared.proc.None?)
    ensures SameRequests(s, Apply(s, Kill)) && SameRequests(s, Apply(s, Stop))
  {
  }

  ghost predicate SameRequests(s: State, t: State) {
    && t.shared.pending == s.shared.pending && t.shared.chans == s.shared.chans && t.shared.nextID == s.shared.nextID
    && t.callers == s.callers && t.sentTo == s.sentTo && t.held == s.held && t.heard == s.heard
    && t.sends == s.sends && t.spawned == s.spawned
  }

  /** A reply, a caller's steps and a request leave process and sessions alone; only a failed write disconnects. */
  lemma RequestsLeaveSessions(s: State, step: Step)
    requires Enabled(s, step)
    requires step.Begin? || step.Read? || step.Deliver? || step.Receive? || step.ContextDone? || step.Abandon?
    ensures var t := Apply(s, step);
            && t.shared.proc == s.shared.proc && t.shared.sessions == s.shared.sessions
            && t.shared.handlers == s.shared.handlers
            && t.shared.connected == (s.shared.connected && !(step.Begin? && !step.written))
            && t.shared.nextID == s.shared.nextID + if step.Begin? then 1 else 0
  {
  }

  /** A new process takes over unconnected, with the ids, entries, sessions and handlers it finds. */
  lemma SpawnLeaves(s: State)
    ensures var t := Apply(s, Spawn);
            && t.shared.proc == Some(s.spawned) && !t.shared.connected && t.spawned == s.spawned + 1
            && t.shared.sessions == s.shared.sessions && t.shared.handlers == s.shared.handlers
            && SameRequests(s, t.(spawned := s.spawned))
  {
  }

  /** Dropping a session forgets all its keys and its handler, and nothing else. */
  lemma DropSessionLeaves(s: State, sid: string)
    ensures var t := Apply(s, Step.DropSession(sid));
            && (forall key :: key in t.shared.sessions <==> key in s.shared.sessions && s.shared.sessions[key] != sid)
            && (forall key :: key in t.shared.sessions ==> t.shared.sessions[key] == s.shared.sessions[key])
            && t.shared.handlers == s.shared.handlers - {sid}
            && t.shared.proc == s.shared.proc && t.shared.connected == s.shared.connected && SameRequests(s, t)
  {
  }

  /** A process that is not current any more stays so over every step. */
  lemma StaysStale(s: State, step: Step, g: nat)
    requires Enabled(s, step) && g < s.spawned && s.shared.proc != Some(g)
    ensures g < Apply(s, step).spawned && Apply(s, step).shared.proc != Some(g)
  {
  }

  /**
   Once a process has been replaced or killed, its watcher changes nothing, whenever it fires: no run
   makes the process current again.
   */
  lemma {:induction false} StaleWatcherChangesNothing(s: State, steps: seq<Step>, t: State, g: nat)
    requires g < s.spawned && s.shared.proc != Some(g) && Path(s, steps, t)
    ensures g < t.spawned && t.shared.proc != Some(g)
    ensures Enabled(t, Exit(g)) && Apply(t, Exit(g)) == t
    decreases |steps|
  {
    if steps != [] {
      StaysStale(s, steps[0], g);
      StaleWatcherChangesNothing(Apply(s, steps[0]), steps[1..], t, g);
    }
  }

  /**
   Exactly what takes a request out of `pending`: the reply of its own process, its own caller
   giving up, or the crash of the process that is then current. `Kill`, and so a restart, is not
   among them: a request in flight over a restart is not answered by it.
   */
  lemma UnfiledIff(s: State, step: Step, c: nat)
    requires Reachable(s) && Enabled(s, step) && Filed(s, c)
    ensures !Filed(Apply(s, step), c) <==>
            || (step.Read? && step.id == c && c < EXPONENT_FROM)
            || (step.Abandon? && step.caller == c)
            || (step.Exit? && s.shared.proc == Some(step.gen))
  {
    ReachableInv(s);
    match step
    case Begin(_) => KeyOutInjective(c, s.shared.nextID + 1); NewKey(s);
    case Read(_, id, _) => KeysAgreeIff(c, id);
    case Abandon(k) => KeyOutInjective(c, k);
    case _ =>
  }

  // --- The millionth request -------------------------------------------------------------

  function Begins(n: nat): seq<Step> {
    if n == 0 then [] else [Begin(true)] + Begins(n - 1)
  }

  lemma {:induction false} BeginMany(s: State, n: nat) returns (t: State)
    requires s.shared.proc.Some? && s.held == map[] && n > 0
    ensures Path(s, Begins(n), t)
    ensures t.shared.nextID == s.shared.nextID + n && t.shared.proc == s.shared.proc
    ensures t.held == map[] && t.spawned == s.spawned
    ensures var id := t.shared.nextID;
            && id in t.sentTo && Some(t.sentTo[id]) == s.shared.proc
            && id in t.callers && t.callers[id] == Waiting && Filed(t, id)
    decreases n
  {
    var next := Apply(s, Begin(true));
    assert Begins(n)[0] == Begin(true) && Begins(n)[1..] == Begins(n - 1);
    if n == 1 {
      t := next;
      assert Path(next, Begins(0), t);
    } else {
      t := BeginMany(next, n - 1);
    }
  }

  lemma {:induction false} PathJoin(s: State, first: seq<Step>, mid: State, rest: seq<Step>, t: State)
    requires Path(s, first, mid) && Path(mid, rest, t)
    ensures Path(s, first + rest, t)
    decreases |first|
  {
    if first == [] {
      assert first + rest == rest;
    } else {
      assert (first + rest)[0] == first[0] && (first + rest)[1..] == first[1..] + rest;
      PathJoin(Apply(s, first[0]), first[1..], mid, rest, t);
    }
  }

  lemma PathThenStep(t: State, step: Step)
    requires Reachable(t) && Enabled(t, step)
    ensures Reachable(Apply(t, step))
  {
    var steps :| Path(Init(), steps, t);
    assert Path(t, [step], Apply(t, step)) by {
      assert [step][1..] == [];
      assert Path(Apply(t, step), [], Apply(t, step));
    }
    PathJoin(Init(), steps, t, [step], Apply(t, step));
  }

  lemma ReachMillionth() returns (t: State)
    ensures Reachable(t) && t.held == map[] && t.spawned == 1
    ensures var id := EXPONENT_FROM;
            && id in t.sentTo && t.sentTo[id] == 0
            && id in t.callers && t.callers[id] == Waiting && Filed(t, id)
  {
    assert Path(Init(), [], Init());
    PathThenStep(Init(), Spawn);
    var started := Apply(Init(), Spawn);
    var steps :| Path(Init(), steps, started);
    t := BeginMany(started, EXPONENT_FROM);
    PathJoin(Init(), steps, started, Begins(EXPONENT_FROM), t);
  }

  /** There is a run in which the reply to a waiting request is read and reaches nobody. */
  lemma MillionthReplyIsLost(payload: Payload) returns (s: State)
    ensures Reachable(s)
    ensures var id := EXPONENT_FROM;
            && id in s.callers && s.callers[id] == Waiting && FromPeer(0, id, payload) in s.heard
            && Filed(s, id) && !InFlight(s, id) && !Buffered(s, id)
  {
    var t := ReachMillionth();
    var read := Read(0, EXPONENT_FROM, payload);
    s := Apply(t, read);
    PathThenStep(t, read);
    ReplyTakenIff(t, 0, EXPONENT_FROM, payload);
    NoLostOrDoubledReply(s);
  }
}
