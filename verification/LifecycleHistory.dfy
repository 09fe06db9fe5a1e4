/**
 What the history of a user's operations says about his status and his effective configuration,
 in every run and whatever fails in it.
 */
module LifecycleHistory {
  import opened Options
  import opened Lifecycle
  import opened LifecycleSafety

  // --- Status -----------------------------------------------------------------------------------

  function StatusOf(s: System, u: string): Status {
    if u in s.store then s.store[u].status else NoStatus
  }

  /** The edges of the lifecycle; a user without a record has no status. */
  predicate Edge(before: Status, after: Status) {
    || before == after
    || after == NoStatus
    || (before == NoStatus && (after == Running || after == Failed))
    || (before == Running && after == Suspended)
    || (before == Suspended && (after == Running || after == Failed))
    || (before == Failed && after == Running)
  }

  lemma MakeStatus(s: System, u: string, env: Env)
    ensures var t := s.Make(u, env).0; StatusOf(t, u) == Running || StatusOf(t, u) == Failed
  {
  }

  lemma WakeUpStatus(s: System, u: string, env: Env)
    requires u in s.store
    ensures var t := s.WakeUp(u, s.store[u], env).0;
            StatusOf(t, u) == Running || (StatusOf(t, u) == Failed && s.store[u].status != Running)
  {
  }

  /** Whatever fails, one operation moves a status along an edge; in particular Running never fails. */
  lemma {:induction false} StatusMovesAlongEdges(s: System, op: Op, u: string)
    requires Consistent(s) && FreshID(s, op)
    ensures Edge(StatusOf(s, u), StatusOf(Step(s, op), u))
    ensures StatusOf(s, u) != NoStatus && StatusOf(Step(s, op), u) == NoStatus ==> op.Delete? && op.user == u
  {
    assert TrackOk(s, u) && RecordOk(s, u);
    if op.Vanish? {
      assert Step(s, op).store == s.store;
    } else if u != op.user {
      OperationsAreIsolated(s, op);
      assert SameFor(s, Step(s, op), u);
    } else {
      OwnStatusMoves(s, op);
    }
  }

  lemma SuspendStatus(s: System, u: string, env: Env)
    ensures var t := s.Suspend(u, env).0;
            || StatusOf(t, u) == StatusOf(s, u)
            || (StatusOf(s, u) == Running && StatusOf(t, u) == Suspended)
  {
    assert s.ProviderStop(u, env.reach).0.store == s.store;
  }

  lemma DeleteStatus(s: System, u: string, env: Env)
    ensures var t := s.Delete(u, env).0; StatusOf(t, u) == StatusOf(s, u) || StatusOf(t, u) == NoStatus
  {
    assert s.ProviderDelete(u, env.reach).0.store == s.store;
  }

  lemma OwnStatusMoves(s: System, op: Op)
    requires !op.Vanish? && RecordOk(s, op.user)
    ensures Edge(StatusOf(s, op.user), StatusOf(Step(s, op), op.user))
    ensures StatusOf(s, op.user) != NoStatus && !op.Delete? ==> StatusOf(Step(s, op), op.user) != NoStatus
  {
    hide System.Create, System.WakeUp, System.Suspend, System.Delete;
    match op
    case Create(u, env) => CreateStatus(s, u, env);
    case Wake(u, env) => if u in s.store { WakeUpStatus(s, u, env); }
    case Suspend(u, env) => SuspendStatus(s, u, env);
    case Delete(u, env) => DeleteStatus(s, u, env);
    case _ =>
  }

  lemma CreateStatus(s: System, u: string, env: Env)
    requires RecordOk(s, u)
    ensures var t := s.Create(u, env).0;
            && Edge(StatusOf(s, u), StatusOf(t, u))
            && (ValidUserID(u) ==> StatusOf(t, u) == Running || StatusOf(t, u) == Failed)
            && (!ValidUserID(u) ==> t == s)
  {
    if ValidUserID(u) {
      if u !in s.store {
        MakeStatus(s, u, env);
      } else if s.store[u].status == Suspended {
        WakeUpStatus(s, u, env);
      } else if s.store[u].status == Failed {
        MakeStatus(s.ProviderDelete(u, env.cleanup).0, u, env);
      }
    }
  }

  // --- Configuration ------------------------------------------------------------------------------

  /** A hot switch: what was set and when. */
  datatype Switch = Switch(cfg: ModelConfig, at: int)

  predicate Succeeds(s: System, op: Op) {
    Effect(s, op).1.fault.None?
  }

  /** u's latest successful hot switch since his latest successful Suspend or Delete. */
  function LatestSwitch(s: System, ops: seq<Op>, u: string): Option<Switch> {
    if ops == [] then None
    else
      var before, op := ops[..|ops| - 1], ops[|ops| - 1];
      if op.SetModelConfig? && op.user == u && Succeeds(Run(s, before), op) then Some(Switch(op.cfg, op.env.now))
      else if (op.Suspend? || op.Delete?) && op.user == u && Succeeds(Run(s, before), op) then None
      else LatestSwitch(s, before, u)
  }

  /** The cache as an optional hot switch. */
  function Cached(s: System, u: string): Option<Switch> {
    if u in s.cache then Some(Switch(s.cache[u].cfg, s.cache[u].expireAt - HOT_CONFIG_TTL)) else None
  }

  lemma ProviderKeepsCache(s: System, u: string, c: Creation, reach: Reach)
    ensures s.ProviderCreate(u, c).0.cache == s.cache
    ensures s.ProviderDelete(u, reach).0.cache == s.cache
  {
  }

  lemma SettleKeepsCache(s: System, u: string, placed: InstanceValue, env: Env)
    ensures s.Settle(u, placed, env).0.cache == s.cache
  {
    var routed := s.RegisterRoute(u, placed.endpoint, env.register);
    ProviderKeepsCache(s, u, env.creation, env.undo);
    ProviderKeepsCache(routed, u, env.creation, env.undo);
  }

  lemma MakeKeepsCache(s: System, u: string, env: Env)
    ensures s.Make(u, env).0.cache == s.cache
  {
    var (s1, made) := s.ProviderCreate(u, env.creation);
    ProviderKeepsCache(s, u, env.creation, env.undo);
    if made.Ok? {
      SettleKeepsCache(s1, u, Placed(FreshInstance(u, env.now), made.value), env);
    }
  }

  lemma WakeUpKeepsCache(s: System, u: string, inst: InstanceValue, env: Env)
    ensures s.WakeUp(u, inst, env).0.cache == s.cache
  {
  }

  lemma CreateKeepsCache(s: System, u: string, env: Env)
    ensures s.Create(u, env).0.cache == s.cache
  {
    hide System.Make, System.WakeUp, System.ProviderDelete;
    MakeKeepsCache(s, u, env);
    ProviderKeepsCache(s, u, env.creation, env.cleanup);
    MakeKeepsCache(s.ProviderDelete(u, env.cleanup).0, u, env);
    if u in s.store {
      WakeUpKeepsCache(s, u, s.store[u], env);
    }
  }

  lemma WakeKeepsCache(s: System, u: string, env: Env)
    ensures s.Wake(u, env).0.cache == s.cache
  {
    hide System.WakeUp;
    if u in s.store {
      WakeUpKeepsCache(s, u, s.store[u], env);
    }
  }

  lemma SuspendCache(s: System, u: string, env: Env)
    ensures var (t, reply) := s.Suspend(u, env); t.cache == if reply.fault.None? then s.cache - {u} else s.cache
  {
    assert s.ProviderStop(u, env.reach).0.cache == s.cache;
  }

  lemma DeleteCache(s: System, u: string, env: Env)
    ensures var (t, reply) := s.Delete(u, env); t.cache == if reply.fault.None? then s.cache - {u} else s.cache
  {
    ProviderKeepsCache(s, u, env.creation, env.reach);
  }

  lemma SetModelConfigCache(s: System, u: string, cfg: ModelConfig, env: Env)
    ensures var (t, reply) := s.SetModelConfig(u, cfg, env);
            t.cache == if reply.fault.None? then s.cache[u := CacheEntry(cfg, env.now + HOT_CONFIG_TTL)] else s.cache
  {
  }

  /** What an operation does to the cached hot switch of u. */
  lemma CacheStep(s: System, op: Op, u: string)
    ensures Cached(Step(s, op), u) ==
            if op.SetModelConfig? && op.user == u && Succeeds(s, op) then Some(Switch(op.cfg, op.env.now))
            else if (op.Suspend? || op.Delete?) && op.user == u && Succeeds(s, op) then None
            else Cached(s, u)
  {
    hide System.Create, System.Wake, System.Suspend, System.Delete, System.SetModelConfig;
    match op
    case Create(v, env) => CreateKeepsCache(s, v, env);
    case Wake(v, env) => WakeKeepsCache(s, v, env);
    case Suspend(v, env) => SuspendCache(s, v, env);
    case Delete(v, env) => DeleteCache(s, v, env);
    case SetModelConfig(v, cfg, env) => SetModelConfigCache(s, v, cfg, env);
    case _ =>
  }

  lemma {:induction false} CacheIsLatestSwitch(s: System, ops: seq<Op>, u: string)
    requires u !in s.cache
    ensures Cached(Run(s, ops), u) == LatestSwitch(s, ops, u)
    decreases |ops|
  {
    if ops != [] {
      CacheIsLatestSwitch(s, ops[..|ops| - 1], u);
      CacheStep(Run(s, ops[..|ops| - 1]), ops[|ops| - 1], u);
    }
  }

  /** A hot switch counts for 24 hours and if it has a base URL; otherwise the seat's configuration does. */
  function Effective(latest: Option<Switch>, now: int, seat: Option<ModelConfig>): Option<ModelConfig> {
    if latest.Some? && now <= latest.value.at + HOT_CONFIG_TTL && latest.value.cfg.baseURL != ""
    then Some(latest.value.cfg) else seat
  }

  /**
   Over any run the effective configuration is decided by the latest successful hot switch since the
   latest successful Suspend or Delete.
   */
  lemma {:induction false} EffectiveConfigIsHistory(
    site: Site, ops: seq<Op>, u: string, now: int, seat: Option<ModelConfig>)
    ensures Run(NewSystem(site), ops).ResolveConfig(u, now, seat) ==
            Effective(LatestSwitch(NewSystem(site), ops, u), now, seat)
  {
    CacheIsLatestSwitch(NewSystem(site), ops, u);
  }

  /** Waking an instance that is not running hands the gateway the seat's configuration. */
  lemma {:induction false} WakeInjectsSeatConfig(site: Site, ops: seq<Op>, u: string, env: Env)
    requires Lawful(NewSystem(site), ops)
    requires StatusOf(Run(NewSystem(site), ops), u) != Running
    requires Run(NewSystem(site), ops).Wake(u, env).1.fault.None?
    ensures env.seat.Some?
    ensures var s := Run(NewSystem(site), ops); s.Wake(u, env).0.pushes == s.pushes + [Push(u, env.seat.value)]
  {
    var s := Run(NewSystem(site), ops);
    RunConsistent(site, ops);
    assert RecordOk(s, u);
    WakeUpPushesSeat(s, u, s.store[u], env);
  }

  lemma WakeUpPushesSeat(s: System, u: string, inst: InstanceValue, env: Env)
    requires inst.status != Running && u !in s.cache && s.WakeUp(u, inst, env).1.fault.None?
    ensures env.seat.Some? && s.WakeUp(u, inst, env).0.pushes == s.pushes + [Push(u, env.seat.value)]
  {
    var s1 := s.ProviderStart(u, env.reach).0;
    assert s1.cache == s.cache && s1.pushes == s.pushes;
  }

  lemma MakePushesSeat(s: System, u: string, env: Env)
    requires u !in s.cache && s.Make(u, env).1.fault.None?
    ensures env.seat.Some? && s.Make(u, env).0.pushes == s.pushes + [Push(u, env.seat.value)]
  {
    var s1 := s.ProviderCreate(u, env.creation).0;
    assert s1.cache == s.cache && s1.pushes == s.pushes;
  }

  /** So does creating one, whether it is new, failed before, or suspended. */
  lemma {:induction false} CreateInjectsSeatConfig(site: Site, ops: seq<Op>, u: string, env: Env)
    requires Lawful(NewSystem(site), ops)
    requires StatusOf(Run(NewSystem(site), ops), u) != Running
    requires Run(NewSystem(site), ops).Create(u, env).1.fault.None?
    ensures env.seat.Some?
    ensures var s := Run(NewSystem(site), ops); s.Create(u, env).0.pushes == s.pushes + [Push(u, env.seat.value)]
  {
    var s := Run(NewSystem(site), ops);
    RunConsistent(site, ops);
    assert RecordOk(s, u);
    if u !in s.store {
      MakePushesSeat(s, u, env);
    } else if s.store[u].status == Suspended {
      WakeUpPushesSeat(s, u, s.store[u], env);
    } else {
      var cleaned := s.ProviderDelete(u, env.cleanup).0;
      assert cleaned.cache == s.cache && cleaned.pushes == s.pushes;
      MakePushesSeat(cleaned, u, env);
    }
  }
}
