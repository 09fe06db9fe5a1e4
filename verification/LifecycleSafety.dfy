/**
 What every run of the sandbox lifecycle keeps. A run is any sequence of operations, each with its
 own failures, in any mix of users; a statement says which calls must be reliable for it.
 */
module LifecycleSafety {
  import opened Options
  import opened Lifecycle

  // --- One user's part of the system ------------------------------------------------------------

  /** v's part is the same in both systems. */
  predicate SameFor(s: System, t: System, v: string) {
    && (v in s.store <==> v in t.store) && (v in s.store ==> s.store[v] == t.store[v])
    && (v in s.activity <==> v in t.activity) && (v in s.activity ==> s.activity[v] == t.activity[v])
    && (v in s.cache <==> v in t.cache) && (v in s.cache ==> s.cache[v] == t.cache[v])
    && (v in s.sbxs <==> v in t.sbxs) && (v in s.sbxs ==> s.sbxs[v] == t.sbxs[v])
    && (v in s.routes <==> v in t.routes) && (v in s.routes ==> s.routes[v] == t.routes[v])
  }

  /** Sandboxes never disappear from the books or change hands, and only u's change phase. */
  ghost predicate CloudOnly(c: map<string, Sandbox>, d: map<string, Sandbox>, u: string) {
    && (forall id :: id in c ==> id in d && d[id].owner == c[id].owner && (c[id].owner != u ==> d[id] == c[id]))
    && (forall id :: id in d && id !in c ==> d[id].owner == u)
  }

  /** Only u's part differs. */
  ghost predicate OnlyFor(s: System, t: System, u: string) {
    && t.site == s.site
    && (forall v :: v != u ==> SameFor(s, t, v))
    && CloudOnly(s.cloud, t.cloud, u)
  }

  /** What the provider tracks for u exists and is u's. */
  predicate TrackOk(s: System, u: string) {
    u in s.sbxs ==> s.sbxs[u] in s.cloud && s.cloud[s.sbxs[u]].owner == u
  }

  /** A tracked user has a record, and only a running one has a cached configuration. */
  predicate RecordOk(s: System, u: string) {
    && (u in s.sbxs ==> u in s.store)
    && (u in s.cache ==> u in s.store && s.store[u].status == Running)
    && (u in s.store ==> s.store[u].userID == u && s.store[u].status != NoStatus)
  }

  ghost predicate Consistent(s: System) {
    forall u {:trigger TrackOk(s, u)} {:trigger RecordOk(s, u)} :: TrackOk(s, u) && RecordOk(s, u)
  }

  lemma ProviderCreateIsOwn(s: System, u: string, c: Creation)
    requires c.sandboxID !in s.cloud && TrackOk(s, u)
    ensures var t := s.ProviderCreate(u, c).0; OnlyFor(s, t, u) && TrackOk(t, u)
  {
  }

  lemma ProviderStartIsOwn(s: System, u: string, reach: Reach)
    requires TrackOk(s, u)
    ensures var t := s.ProviderStart(u, reach).0; OnlyFor(s, t, u) && TrackOk(t, u)
  {
  }

  lemma ProviderStopIsOwn(s: System, u: string, reach: Reach)
    requires TrackOk(s, u)
    ensures var t := s.ProviderStop(u, reach).0; OnlyFor(s, t, u) && TrackOk(t, u)
  {
  }

  lemma ProviderDeleteIsOwn(s: System, u: string, reach: Reach)
    requires TrackOk(s, u)
    ensures var t := s.ProviderDelete(u, reach).0; OnlyFor(s, t, u) && TrackOk(t, u)
  {
  }

  lemma OnlyForTrans(r: System, s: System, t: System, u: string)
    requires OnlyFor(r, s, u) && OnlyFor(s, t, u)
    ensures OnlyFor(r, t, u)
  {
    forall v | v != u
      ensures SameFor(r, t, v)
    {
      assert SameFor(r, s, v) && SameFor(s, t, v);
    }
  }

  /** A record written for u keeps u's part in order. */
  lemma RecordIsOwn(s: System, u: string, inst: InstanceValue)
    requires TrackOk(s, u) && u !in s.cache && inst.userID == u && inst.status != NoStatus
    ensures var t := s.Record(u, inst).0; OnlyFor(s, t, u) && TrackOk(t, u) && RecordOk(t, u)
  {
  }

  lemma RouteIsOwn(s: System, u: string, endpoint: string, works: bool)
    requires TrackOk(s, u)
    ensures var t := s.RegisterRoute(u, endpoint, works); OnlyFor(s, t, u) && TrackOk(t, u) && t.cache == s.cache
  {
  }

  lemma PushIsOwn(s: System, u: string, cfg: ModelConfig)
    requires TrackOk(s, u)
    ensures var t := s.Pushed(u, cfg); OnlyFor(s, t, u) && TrackOk(t, u) && t.cache == s.cache
  {
  }

  /** The state r, in which u's part is in order, was reached from s by touching only u's part. */
  ghost predicate OwnResult(s: System, r: (System, Reply), u: string) {
    OnlyFor(s, r.0, u) && TrackOk(r.0, u) && RecordOk(r.0, u)
  }

  lemma UndoIsOwn(s: System, u: string, reach: Reach, inst: InstanceValue, fault: Fault, now: int)
    requires TrackOk(s, u) && u !in s.cache && inst.userID == u
    ensures OwnResult(s, s.ProviderDelete(u, reach).0.Fail(u, inst, fault, now), u)
  {
    var d := s.ProviderDelete(u, reach).0;
    ProviderDeleteIsOwn(s, u, reach);
    var failed := inst.(status := Failed, error := Some(fault), updatedAt := now);
    RecordIsOwn(d, u, failed);
    OnlyForTrans(s, d, d.Record(u, failed).0, u);
  }

  lemma SettleIsOwn(s: System, u: string, placed: InstanceValue, env: Env)
    requires TrackOk(s, u) && u !in s.cache && placed.userID == u && placed.status == Running
    ensures OwnResult(s, s.Settle(u, placed, env), u)
  {
    if !env.healthy {
      UndoIsOwn(s, u, env.undo, placed, Unhealthy, env.now);
    } else {
      var routed := s.RegisterRoute(u, placed.endpoint, env.register);
      RouteIsOwn(s, u, placed.endpoint, env.register);
      var cfg := routed.ResolveConfig(u, env.now, env.seat);
      if cfg.None? {
        UndoIsOwn(routed, u, env.undo, placed, NoSeat, env.now);
      } else {
        var pushed := routed.Pushed(u, cfg.value);
        PushIsOwn(routed, u, cfg.value);
        RecordIsOwn(pushed, u, placed);
        OnlyForTrans(routed, pushed, pushed.Record(u, placed).0, u);
      }
      OnlyForTrans(s, routed, s.Settle(u, placed, env).0, u);
    }
  }

  lemma MakeIsOwn(s: System, u: string, env: Env)
    requires env.creation.sandboxID !in s.cloud && TrackOk(s, u) && u !in s.cache
    ensures OwnResult(s, s.Make(u, env), u)
  {
    var (s1, made) := s.ProviderCreate(u, env.creation);
    ProviderCreateIsOwn(s, u, env.creation);
    var inst := FreshInstance(u, env.now);
    if made.Err? {
      RecordIsOwn(s1, u, inst.(status := Failed, error := Some(made.error), updatedAt := env.now));
    } else {
      SettleIsOwn(s1, u, Placed(inst, made.value), env);
    }
    OnlyForTrans(s, s1, s.Make(u, env).0, u);
  }

  lemma RouseIsOwn(s: System, u: string, placed: InstanceValue, env: Env)
    requires TrackOk(s, u) && u !in s.cache && placed.userID == u
    ensures OwnResult(s, s.Rouse(u, placed, env), u)
  {
    if !env.healthy {
      RecordIsOwn(s, u, placed.(status := Failed, error := Some(Unhealthy), updatedAt := env.now));
    } else {
      var routed := s.RegisterRoute(u, placed.endpoint, env.register);
      RouteIsOwn(s, u, placed.endpoint, env.register);
      var cfg := routed.ResolveConfig(u, env.now, env.seat);
      if cfg.None? {
        RecordIsOwn(routed, u, placed.(status := Failed, error := Some(NoSeat), updatedAt := env.now));
      } else {
        var pushed := routed.Pushed(u, cfg.value);
        var awake := placed.(status := Running, error := None, updatedAt := env.now, lastActiveAt := env.now);
        PushIsOwn(routed, u, cfg.value);
        RecordIsOwn(pushed, u, awake);
        OnlyForTrans(routed, pushed, pushed.Record(u, awake).0, u);
      }
      OnlyForTrans(s, routed, s.Rouse(u, placed, env).0, u);
    }
  }

  lemma WakeUpIsOwn(s: System, u: string, env: Env)
    requires TrackOk(s, u) && RecordOk(s, u) && u in s.store
    ensures OwnResult(s, s.WakeUp(u, s.store[u], env), u)
  {
    if s.store[u].status != Running {
      var (s1, started) := s.ProviderStart(u, env.reach);
      ProviderStartIsOwn(s, u, env.reach);
      if started.Err? {
        RecordIsOwn(s1, u, s.store[u].(status := Failed, error := Some(started.error), updatedAt := env.now));
      } else {
        RouseIsOwn(s1, u, Placed(s.store[u], started.value), env);
      }
      OnlyForTrans(s, s1, s.WakeUp(u, s.store[u], env).0, u);
    }
  }

  lemma CreateIsOwn(s: System, u: string, env: Env)
    requires TrackOk(s, u) && RecordOk(s, u) && env.creation.sandboxID !in s.cloud
    ensures OwnResult(s, s.Create(u, env), u)
  {
    if ValidUserID(u) {
      if u !in s.store {
        MakeIsOwn(s, u, env);
      } else if s.store[u].status == Suspended {
        WakeUpIsOwn(s, u, env);
      } else if s.store[u].status == Failed {
        var s1 := s.ProviderDelete(u, env.cleanup).0;
        ProviderDeleteIsOwn(s, u, env.cleanup);
        MakeIsOwn(s1, u, env);
        OnlyForTrans(s, s1, s1.Make(u, env).0, u);
      }
    }
  }

  lemma SuspendIsOwn(s: System, u: string, env: Env)
    requires TrackOk(s, u) && RecordOk(s, u)
    ensures OwnResult(s, s.Suspend(u, env), u)
  {
    ProviderStopIsOwn(s, u, env.reach);
    var s1 := s.ProviderStop(u, env.reach).0;
    assert OnlyFor(s1, s1, u);
    if u in s.store && s.store[u].status == Running && s.ProviderStop(u, env.reach).1.None? {
      var asleep := s.store[u].(status := Suspended, updatedAt := env.now);
      var s2 := s1.(cache := s1.cache - {u});
      assert OnlyFor(s1, s2, u);
      RecordIsOwn(s2, u, asleep);
      OnlyForTrans(s, s1, s2, u);
      OnlyForTrans(s, s2, s2.Record(u, asleep).0, u);
      assert s.Suspend(u, env).0 == s2.Record(u, asleep).0;
    }
  }

  lemma DeleteIsOwn(s: System, u: string, env: Env)
    requires TrackOk(s, u) && RecordOk(s, u)
    ensures OwnResult(s, s.Delete(u, env), u)
  {
    ProviderDeleteIsOwn(s, u, env.reach);
    var (s1, fault) := s.ProviderDelete(u, env.reach);
    if fault.None? {
      EraseIsOwn(s1, u, env.unregister);
      OnlyForTrans(s, s1, s1.Erase(u, env.unregister), u);
    }
  }

  lemma EraseIsOwn(s: System, u: string, unregister: bool)
    requires TrackOk(s, u) && u !in s.sbxs
    ensures OwnResult(s, (s.Erase(u, unregister), Reply(None, None)), u)
  {
  }

  lemma SetModelConfigIsOwn(s: System, u: string, cfg: ModelConfig, env: Env)
    requires TrackOk(s, u) && RecordOk(s, u)
    ensures OwnResult(s, s.SetModelConfig(u, cfg, env), u)
  {
    PushIsOwn(s, u, cfg);
  }

  /**
   No operation on one user touches another user's record, activity, cached configuration, tracked
   sandbox or route, nor any sandbox that is not the user's.
   */
  lemma OperationsAreIsolated(s: System, op: Op)
    requires Consistent(s) && FreshID(s, op) && !op.Vanish?
    ensures OwnResult(s, Effect(s, op), op.user)
  {
    var u := op.user;
    assert TrackOk(s, u) && RecordOk(s, u);
    match op
    case Create(_, env) => CreateIsOwn(s, u, env);
    case Suspend(_, env) => SuspendIsOwn(s, u, env);
    case Wake(_, env) => if u in s.store { WakeUpIsOwn(s, u, env); }
    case Delete(_, env) => DeleteIsOwn(s, u, env);
    case SetModelConfig(_, cfg, env) => SetModelConfigIsOwn(s, u, cfg, env);
    case _ =>
  }

  lemma StepConsistent(s: System, op: Op)
    requires Consistent(s) && FreshID(s, op)
    ensures Consistent(Step(s, op))
  {
    var t := Step(s, op);
    if !op.Vanish? {
      OperationsAreIsolated(s, op);
    }
    forall u
      ensures TrackOk(t, u) && RecordOk(t, u)
    {
      assert TrackOk(s, u) && RecordOk(s, u);
      assert !op.Vanish? && u != op.user ==> SameFor(s, t, u);
    }
  }

  lemma {:induction false} RunConsistent(site: Site, ops: seq<Op>)
    requires Lawful(NewSystem(site), ops)
    ensures Consistent(Run(NewSystem(site), ops))
    decreases |ops|
  {
    if ops != [] {
      RunConsistent(site, ops[..|ops| - 1]);
      StepConsistent(Run(NewSystem(site), ops[..|ops| - 1]), ops[|ops| - 1]);
    }
  }
}
