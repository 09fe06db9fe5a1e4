/**
 How each operation ends. For every state a lawful run can reach and every way the outside world may
 answer: whether the operation succeeds, why it fails if it does not, and what it leaves behind.
 */
module LifecycleOutcomes {
  import opened Options
  import opened Lifecycle
  import opened LifecycleSafety
  import RequestKeys

  /** A record with the sandbox's workspace, endpoint and port. */
  function InSandbox(s: System, inst: InstanceValue, sandboxID: string): InstanceValue {
    inst.(workspace := "users/" + inst.userID, endpoint := s.site.Endpoint(sandboxID), port := s.site.agentPort)
  }

  function RunningRecord(s: System, inst: InstanceValue, sandboxID: string, now: int): InstanceValue {
    InSandbox(s, inst, sandboxID).(status := Running, error := None, updatedAt := now, lastActiveAt := now)
  }

  function FailedRecord(inst: InstanceValue, fault: Fault, now: int): InstanceValue {
    inst.(status := Failed, error := Some(fault), updatedAt := now)
  }

  /** What a success of `Create` or `Wake` leaves, if it has made or resumed this sandbox. */
  predicate Serves(s: System, t: System, r: Reply, u: string, inst: InstanceValue, sandboxID: string, env: Env) {
    && env.seat.Some?
    && t == s.(store := s.store[u := inst],
         sbxs := s.sbxs[u := sandboxID],
         cloud := s.cloud[sandboxID := Sandbox(u, Up)],
         routes := if env.register then s.routes[u := inst.endpoint] else s.routes,
         pushes := s.pushes + [Push(u, env.seat.value)])
    && r == Reply(Some(inst), None)
  }

  /** A failure of `Create` or `Wake` is recorded and returned. */
  predicate Records(s: System, t: System, r: Reply, u: string, failed: InstanceValue) {
    t == s.(store := s.store[u := failed]) && r == Reply(Some(failed), failed.error)
  }

  /** What a failed wake has changed before it is recorded: it may have resumed the sandbox and set the route. */
  function HalfWoken(s: System, u: string, env: Env): System {
    if u !in s.sbxs || !s.Connects(s.sbxs[u], env.reach) then s
    else
      var resumed := s.WithPhase(s.sbxs[u], Up);
      if env.reach.next && env.healthy && env.register then
        resumed.(routes := s.routes[u := s.site.Endpoint(s.sbxs[u])])
      else resumed
  }

  function HalfWokenRecord(s: System, u: string, env: Env): InstanceValue
    requires u in s.store
  {
    if u in s.sbxs && s.Connects(s.sbxs[u], env.reach) && env.reach.next then InSandbox(s, s.store[u], s.sbxs[u])
    else s.store[u]
  }

  /** Why waking fails, if it does: the first thing that goes wrong. */
  function WakeFault(s: System, u: string, env: Env): Option<Fault> {
    if u !in s.sbxs then Some(UnknownSandbox)
    else if !s.Connects(s.sbxs[u], env.reach) then Some(ConnectFailed)
    else if !env.reach.next then Some(NotReady)
    else if !env.healthy then Some(Unhealthy)
    else if env.seat.None? then Some(NoSeat)
    else None
  }

  function MakeFault(env: Env): Option<Fault> {
    if !env.creation.created then Some(CreateFailed)
    else if !env.creation.ready then Some(NotReady)
    else if !env.healthy then Some(Unhealthy)
    else if env.seat.None? then Some(NoSeat)
    else None
  }

  /**
   A record that is not running is woken exactly if its sandbox is tracked, connects and is ready, the
   instance is healthy and there is a seat. Then it runs.
   */
  ghost predicate WakeOutcome(s: System, u: string, env: Env, t: System, r: Reply) {
    if u !in s.store then t == s && r == Reply(None, Some(NotFound))
    else if s.store[u].status == Running then t == s && r == Reply(Some(s.store[u]), None)
    else
      && r.fault == WakeFault(s, u, env)
      && (r.fault.None? <==>
            && u in s.sbxs && s.Connects(s.sbxs[u], env.reach) && env.reach.next
            && env.healthy && env.seat.Some?)
      && (r.fault.None? ==>
            Serves(s, t, r, u, RunningRecord(s, s.store[u], s.sbxs[u], env.now), s.sbxs[u], env))
      && (r.fault.Some? ==>
            Records(HalfWoken(s, u, env), t, r, u, FailedRecord(HalfWokenRecord(s, u, env), r.fault.value, env.now)))
  }

  /** A new record, running in this sandbox. */
  function NewRecord(s: System, u: string, sandboxID: string, now: int): InstanceValue {
    InstanceValue(u, "agent-" + u, Running, "users/" + u, s.site.Endpoint(sandboxID), s.site.agentPort, "",
                  None, now, 0, now, now)
  }

  /** What is left of a failed instance's sandbox when a new one is made. */
  function Cleaned(s: System, u: string, reach: Reach): System {
    if u !in s.sbxs then s
    else if !s.Connects(s.sbxs[u], reach) then s.(sbxs := s.sbxs - {u})
    else if reach.next then s.WithPhase(s.sbxs[u], Killed).(sbxs := s.sbxs - {u})
    else s.WithPhase(s.sbxs[u], Up)
  }

  /** What a failed creation has changed before it is recorded, when the new sandbox has been killed again. */
  function HalfMade(s: System, u: string, env: Env): System {
    var id := env.creation.sandboxID;
    if !env.creation.created then s
    else
      var made := s.(cloud := s.cloud[id := Sandbox(u, Up)], sbxs := s.sbxs[u := id]);
      if !env.creation.ready then made
      else if !env.healthy then Cleaned(made, u, env.undo)
      else
        Cleaned(made.(routes := if env.register then s.routes[u := s.site.Endpoint(id)] else s.routes), u, env.undo)
  }

  function HalfMadeRecord(s: System, u: string, env: Env): InstanceValue {
    var inst := InstanceValue(u, "agent-" + u, Running, "", "", 0, "", None, env.now, 0, env.now, env.now);
    if env.creation.created && env.creation.ready then InSandbox(s, inst, env.creation.sandboxID) else inst
  }

  /**
   A valid user's instance is returned if it runs, woken if it is suspended, and made otherwise: exactly
   if the sandbox is created and ready, the instance is healthy and there is a seat.
   */
  ghost predicate CreateOutcome(s: System, u: string, env: Env, t: System, r: Reply) {
    if !ValidUserID(u) then t == s && r == Reply(None, Some(InvalidUser))
    else if u in s.store && s.store[u].status == Running then t == s && r == Reply(Some(s.store[u]), None)
    else if u in s.store && s.store[u].status == Suspended then WakeOutcome(s, u, env, t, r)
    else
      var c := if u in s.store then Cleaned(s, u, env.cleanup) else s;
      && r.fault == MakeFault(env)
      && (r.fault.None? <==> env.creation.created && env.creation.ready && env.healthy && env.seat.Some?)
      && (r.fault.None? ==>
            var id := env.creation.sandboxID; Serves(c, t, r, u, NewRecord(s, u, id, env.now), id, env))
      && (r.fault.Some? ==>
            Records(HalfMade(c, u, env), t, r, u, FailedRecord(HalfMadeRecord(c, u, env), r.fault.value, env.now)))
  }

  /** A running instance is suspended exactly if its sandbox, if it has one, connects and pauses. */
  ghost predicate SuspendOutcome(s: System, u: string, env: Env, t: System, r: Reply) {
    if u !in s.store then t == s && r == Reply(None, Some(NotFound))
    else if s.store[u].status != Running then
      t == s && r == Reply(Some(s.store[u]), Some(WrongStatus(s.store[u].status)))
    else if u in s.sbxs && !s.Connects(s.sbxs[u], env.reach) then t == s && r == Reply(None, Some(ConnectFailed))
    else if u in s.sbxs && !env.reach.next then
      t == s.WithPhase(s.sbxs[u], Up) && r == Reply(None, Some(PauseFailed))
    else
      var asleep := s.store[u].(status := Suspended, updatedAt := env.now);
      && r == Reply(Some(asleep), None)
      && t == s.(store := s.store[u := asleep], cache := s.cache - {u},
           cloud := if u in s.sbxs then s.WithPhase(s.sbxs[u], Paused).cloud else s.cloud)
  }

  /** Deleting fails exactly if the sandbox connects and is not killed. Otherwise nothing of the user is left. */
  ghost predicate DeleteOutcome(s: System, u: string, env: Env, t: System, r: Reply) {
    if u in s.sbxs && s.Connects(s.sbxs[u], env.reach) && !env.reach.next then
      t == s.WithPhase(s.sbxs[u], Up) && r == Reply(None, Some(KillFailed))
    else
      && r == Reply(None, None)
      && t == s.(store := s.store - {u}, activity := s.activity - {u}, cache := s.cache - {u}, sbxs := s.sbxs - {u},
           routes := if env.unregister then s.routes - {u} else s.routes,
           cloud := if u in s.sbxs && s.Connects(s.sbxs[u], env.reach) then s.WithPhase(s.sbxs[u], Killed).cloud
                    else s.cloud)
  }

  /** A running instance's configuration is switched exactly if the gateway takes the new one. */
  ghost predicate SwitchOutcome(s: System, u: string, cfg: ModelConfig, env: Env, t: System, r: Reply) {
    if u !in s.store then t == s && r == Reply(None, Some(NotFound))
    else if s.store[u].status != Running then t == s && r == Reply(None, Some(WrongStatus(s.store[u].status)))
    else if !env.inject then
      t == s.(pushes := s.pushes + [Push(u, cfg)]) && r == Reply(None, Some(GatewayFailed))
    else
      var known := if u in s.activity then s.activity[u].wsConnections else 0;
      var id := if u in s.activity then s.activity[u].userID else u;
      && r == Reply(Some(s.store[u]), None)
      && t == s.(pushes := s.pushes + [Push(u, cfg)],
           cache := s.cache[u := CacheEntry(cfg, env.now + 24 * HOUR)],
           activity := s.activity[u := ActivityValue(id, known, env.now)])
  }

  ghost predicate OutcomeOk(s: System, op: Op, t: System, r: Reply) {
    match op
    case Create(u, env) => CreateOutcome(s, u, env, t, r)
    case Wake(u, env) => WakeOutcome(s, u, env, t, r)
    case Suspend(u, env) => SuspendOutcome(s, u, env, t, r)
    case Delete(u, env) => DeleteOutcome(s, u, env, t, r)
    case SetModelConfig(u, cfg, env) => SwitchOutcome(s, u, cfg, env, t, r)
    case Touch(u, now) =>
      var n := if u in s.activity then s.activity[u].wsConnections else 0;
      var id := if u in s.activity then s.activity[u].userID else u;
      t == s.(activity := s.activity[u := ActivityValue(id, n, now)])
    case SetWSConnections(u, n, now) =>
      var id := if u in s.activity then s.activity[u].userID else u;
      t == s.(activity := s.activity[u := ActivityValue(id, n, now)])
    case Vanish(id) =>
      t == s.(cloud := if id in s.cloud then s.cloud[id := Sandbox(s.cloud[id].owner, Killed)] else s.cloud)
  }

  // --- Proofs --------------------------------------------------------------------------------------------

  lemma RouseEnds(s: System, u: string, placed: InstanceValue, env: Env)
    requires u !in s.cache && placed.userID == u
    ensures var (t, r) := s.Rouse(u, placed, env);
            var awake := placed.(status := Running, error := None, updatedAt := env.now, lastActiveAt := env.now);
            var routed := if env.register then s.(routes := s.routes[u := placed.endpoint]) else s;
            && r.fault == (if !env.healthy then Some(Unhealthy) else if env.seat.None? then Some(NoSeat) else None)
            && (r.fault.None? ==>
                  && r == Reply(Some(awake), None)
                  && t == routed.(store := s.store[u := awake], pushes := s.pushes + [Push(u, env.seat.value)]))
            && (r.fault.Some? ==>
                  Records(if env.healthy then routed else s, t, r, u, FailedRecord(placed, r.fault.value, env.now)))
  {
  }

  lemma WakeEnds(s: System, u: string, env: Env)
    requires TrackOk(s, u) && RecordOk(s, u)
    ensures var (t, r) := s.Wake(u, env); WakeOutcome(s, u, env, t, r)
  {
    if u in s.store && s.store[u].status != Running && u in s.sbxs && s.Connects(s.sbxs[u], env.reach) {
      var s1 := s.WithPhase(s.sbxs[u], Up);
      if env.reach.next {
        hide System.Rouse;
        RouseEnds(s1, u, Placed(s.store[u], s.site.InfoOf(u, s.sbxs[u])), env);
        assert s.sbxs[u := s.sbxs[u]] == s.sbxs;
      }
    }
  }

  lemma SettleEnds(s: System, u: string, placed: InstanceValue, env: Env)
    requires u !in s.cache
    ensures var (t, r) := s.Settle(u, placed, env);
            var routed := if env.register then s.(routes := s.routes[u := placed.endpoint]) else s;
            && r.fault == (if !env.healthy then Some(Unhealthy) else if env.seat.None? then Some(NoSeat) else None)
            && (r.fault.None? ==>
                  && r == Reply(Some(placed), None)
                  && t == routed.(store := s.store[u := placed], pushes := s.pushes + [Push(u, env.seat.value)]))
            && (r.fault.Some? ==>
                  Records(Cleaned(if env.healthy then routed else s, u, env.undo), t, r, u,
                          FailedRecord(placed, r.fault.value, env.now)))
  {
    hide System.ProviderDelete, Cleaned;
    CleanedIsDeleted(s, u, env.undo);
    CleanedIsDeleted(s.RegisterRoute(u, placed.endpoint, env.register), u, env.undo);
  }

  lemma MakeEnds(s: System, u: string, env: Env)
    requires u !in s.cache
    ensures var (t, r) := s.Make(u, env);
            && r.fault == MakeFault(env)
            && (r.fault.None? ==>
                  var id := env.creation.sandboxID; Serves(s, t, r, u, NewRecord(s, u, id, env.now), id, env))
            && (r.fault.Some? ==>
                  Records(HalfMade(s, u, env), t, r, u,
                          FailedRecord(HalfMadeRecord(s, u, env), r.fault.value, env.now)))
  {
    hide System.Settle, Cleaned;
    var (s1, made) := s.ProviderCreate(u, env.creation);
    if made.Ok? {
      var placed := Placed(FreshInstance(u, env.now), made.value);
      assert placed == HalfMadeRecord(s, u, env);
      SettleEnds(s1, u, placed, env);
    }
  }

  lemma CleanedIsDeleted(s: System, u: string, reach: Reach)
    ensures s.ProviderDelete(u, reach).0 == Cleaned(s, u, reach)
  {
  }

  lemma CreateEnds(s: System, u: string, env: Env)
    requires TrackOk(s, u) && RecordOk(s, u)
    ensures var (t, r) := s.Create(u, env); CreateOutcome(s, u, env, t, r)
  {
    hide System.Make, System.WakeUp, System.ProviderDelete, WakeOutcome;
    if ValidUserID(u) {
      if u !in s.store {
        MakeEnds(s, u, env);
      } else if s.store[u].status == Suspended {
        WakeEnds(s, u, env);
      } else if s.store[u].status == Failed {
        CleanedIsDeleted(s, u, env.cleanup);
        MakeEnds(Cleaned(s, u, env.cleanup), u, env);
      }
    }
  }

  lemma SuspendEnds(s: System, u: string, env: Env)
    ensures var (t, r) := s.Suspend(u, env); SuspendOutcome(s, u, env, t, r)
  {
  }

  lemma DeleteEnds(s: System, u: string, env: Env)
    ensures var (t, r) := s.Delete(u, env); DeleteOutcome(s, u, env, t, r)
  {
  }

  lemma SwitchEnds(s: System, u: string, cfg: ModelConfig, env: Env)
    ensures var (t, r) := s.SetModelConfig(u, cfg, env); SwitchOutcome(s, u, cfg, env, t, r)
  {
  }

  /** After every lawful run, however its operations failed, the next one ends as its outcome says. */
  lemma {:induction false} EveryOutcome(site: Site, ops: seq<Op>, op: Op)
    requires Lawful(NewSystem(site), ops)
    ensures var s := Run(NewSystem(site), ops);
            var (t, r) := Effect(s, op);
            OutcomeOk(s, op, t, r)
  {
    var s := Run(NewSystem(site), ops);
    RunConsistent(site, ops);
    hide CreateOutcome, WakeOutcome, SuspendOutcome, DeleteOutcome, SwitchOutcome, Run;
    hide System.Create, System.Wake, System.Suspend, System.Delete, System.SetModelConfig;
    match op
    case Create(u, env) => assert TrackOk(s, u); CreateEnds(s, u, env);
    case Wake(u, env) => assert TrackOk(s, u); WakeEnds(s, u, env);
    case Suspend(u, env) => SuspendEnds(s, u, env);
    case Delete(u, env) => DeleteEnds(s, u, env);
    case SetModelConfig(u, cfg, env) => SwitchEnds(s, u, cfg, env);
    case _ =>
  }

  // --- Users --------------------------------------------------------------------------------------------

  predicate Letter(c: char) {
    c in "abcdefghijklmnopqrstuvwxyz" || c in "ABCDEFGHIJKLMNOPQRSTUVWXYZ"
  }

  /**
   The valid user ids, built up: a letter or a digit, and then up to 62 letters, digits, dots, underscores
   and hyphens.
   */
  lemma ValidUserIDs(u: string, c: char)
    ensures !ValidUserID("")
    ensures ValidUserID([c]) <==> Letter(c) || c in "0123456789"
    ensures u != "" ==>
              (ValidUserID(u + [c]) <==> ValidUserID(u) && |u| < 63 && (Letter(c) || c in "0123456789" || c in "._-"))
  {
    Ranges(c);
    if u != "" {
      assert (u + [c])[0] == u[0] && (u + [c])[|u|] == c;
      assert forall k :: 0 <= k < |u| ==> (u + [c])[k] == u[k];
    }
  }

  lemma Lower(c: char)
    ensures 'a' <= c <= 'z' <==> c in "abcdefghijklmnopqrstuvwxyz"
  {
    var all := "abcdefghijklmnopqrstuvwxyz";
    if 'a' <= c <= 'z' {
      assert all[c as int - 'a' as int] == c;
    }
  }

  lemma Upper(c: char)
    ensures 'A' <= c <= 'Z' <==> c in "ABCDEFGHIJKLMNOPQRSTUVWXYZ"
  {
    var all := "ABCDEFGHIJKLMNOPQRSTUVWXYZ";
    if 'A' <= c <= 'Z' {
      assert all[c as int - 'A' as int] == c;
    }
  }

  lemma Ranges(c: char)
    ensures AlphaNumeric(c) <==> Letter(c) || c in "0123456789"
  {
    Lower(c);
    Upper(c);
  }

  // --- Endpoints ------------------------------------------------------------------------------------------

  lemma {:induction false} SlashesTrimmed(s: string)
    ensures var t := TrimRightSlashes(s);
            && t <= s && (t != "" ==> t[|t| - 1] != '/') && forall k :: |t| <= k < |s| ==> s[k] == '/'
    decreases |s|
  {
    if s != "" && s[|s| - 1] == '/' {
      SlashesTrimmed(s[..|s| - 1]);
    }
  }

  /** Sandboxes at one site are reached at different endpoints, and however the base is written. */
  lemma EndpointsDiffer(site: Site, a: string, b: string)
    requires site.Endpoint(a) == site.Endpoint(b)
    ensures a == b
  {
    var base := TrimRightSlashes(site.baseURL) + "/sandboxes/";
    var end := "/port/" + RequestKeys.Decimal(site.agentPort);
    assert site.Endpoint(a) == base + a + end && site.Endpoint(b) == base + b + end;
    assert |base + a + end| == |base + b + end|;
    assert (base + a + end)[|base|..|base| + |a|] == a;
    assert (base + b + end)[|base|..|base| + |b|] == b;
  }
}
