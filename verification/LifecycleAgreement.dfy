/**
 The store agrees with the world: a user recorded as Running has a running sandbox and a route to
 it, one recorded as Suspended has a paused sandbox, and one without a record has no route.

 Calls to create, connect, wait, pause, resolve a seat and inject may all fail, and so may the kills
 with which `Create` cleans up. The gateway's registry and the kill of `Delete` must be reliable, and
 the platform must not act by itself.
 */
module LifecycleAgreement {
  import opened Lifecycle
  import opened LifecycleSafety

  ghost predicate Agrees(s: System, u: string) {
    if u !in s.store then u !in s.routes
    else match s.store[u].status
      case Running => InPhase(s, u, Up) && Routed(s, u)
      case Suspended => InPhase(s, u, Paused) && Routed(s, u)
      case _ => true
  }

  predicate InPhase(s: System, u: string, phase: Phase) {
    u in s.sbxs && s.sbxs[u] in s.cloud && s.cloud[s.sbxs[u]].phase == phase
  }

  predicate Routed(s: System, u: string) {
    && u in s.sbxs && u in s.routes && u in s.store
    && s.routes[u] == s.store[u].endpoint == s.site.Endpoint(s.sbxs[u])
  }

  /** The registry answers, `Kill` works on a connected sandbox, and the platform does nothing itself. */
  predicate Reliable(op: Op) {
    && (op.Create? || op.Wake? ==> op.env.register)
    && (op.Delete? ==> op.env.unregister && op.env.reach.next)
    && !op.Vanish?
  }

  lemma SettleAgrees(s: System, u: string, placed: InstanceValue, env: Env)
    requires env.register && placed.status == Running
    requires InPhase(s, u, Up) && placed.endpoint == s.site.Endpoint(s.sbxs[u])
    ensures Agrees(s.Settle(u, placed, env).0, u)
  {
    if env.healthy {
      var routed := s.RegisterRoute(u, placed.endpoint, env.register);
      assert InPhase(routed, u, Up);
    }
  }

  lemma MakeAgrees(s: System, u: string, env: Env)
    requires env.register
    ensures Agrees(s.Make(u, env).0, u)
  {
    var (s1, made) := s.ProviderCreate(u, env.creation);
    if made.Ok? {
      SettleAgrees(s1, u, Placed(FreshInstance(u, env.now), made.value), env);
    }
  }

  lemma RouseAgrees(s: System, u: string, placed: InstanceValue, env: Env)
    requires env.register
    requires InPhase(s, u, Up) && placed.endpoint == s.site.Endpoint(s.sbxs[u])
    ensures Agrees(s.Rouse(u, placed, env).0, u)
  {
    if env.healthy {
      var routed := s.RegisterRoute(u, placed.endpoint, env.register);
      assert InPhase(routed, u, Up);
    }
  }

  lemma WakeUpAgrees(s: System, u: string, env: Env)
    requires env.register && u in s.store && Agrees(s, u)
    ensures Agrees(s.WakeUp(u, s.store[u], env).0, u)
  {
    if s.store[u].status != Running {
      var (s1, started) := s.ProviderStart(u, env.reach);
      if started.Ok? {
        RouseAgrees(s1, u, Placed(s.store[u], started.value), env);
      }
    }
  }

  lemma CreateAgrees(s: System, u: string, env: Env)
    requires env.register && Agrees(s, u)
    ensures Agrees(s.Create(u, env).0, u)
  {
    if ValidUserID(u) {
      MakeAgrees(s, u, env);
      if u in s.store {
        WakeUpAgrees(s, u, env);
        MakeAgrees(s.ProviderDelete(u, env.cleanup).0, u, env);
      }
    }
  }

  /** Pausing may fail: the sandbox is then running still, and so is the record. */
  lemma SuspendAgrees(s: System, u: string, env: Env)
    requires Agrees(s, u)
    ensures Agrees(s.Suspend(u, env).0, u)
  {
  }

  /**
   `Delete` keeps the agreement exactly if no kill fails on a suspended user, whose sandbox `Connect`
   has resumed by then, and no route outlives the record.
   */
  lemma DeleteAgreesIff(s: System, u: string, env: Env)
    requires Agrees(s, u)
    ensures var killFails := u in s.sbxs && s.Connects(s.sbxs[u], env.reach) && !env.reach.next;
            Agrees(s.Delete(u, env).0, u) <==>
            if killFails then !(u in s.store && s.store[u].status == Suspended)
            else env.unregister || u !in s.routes
  {
    var (s1, fault) := s.ProviderDelete(u, env.reach);
    if fault.Some? {
      assert s1 == s.WithPhase(s.sbxs[u], Up);
      assert InPhase(s1, u, Up);
      assert s.Delete(u, env).0 == s1;
      assert Routed(s, u) ==> Routed(s1, u);
    } else {
      assert s1.routes == s.routes;
      var t := s1.Erase(u, env.unregister);
      assert u !in t.store && (u in t.routes <==> u in s.routes && !env.unregister);
    }
  }

  lemma StepAgrees(s: System, op: Op, u: string)
    requires Consistent(s) && FreshID(s, op) && Reliable(op) && Agrees(s, u)
    ensures Agrees(Step(s, op), u)
  {
    if u != op.user {
      OperationsAreIsolated(s, op);
      assert SameFor(s, Step(s, op), u) && TrackOk(s, u);
    } else {
      hide System.Create, System.WakeUp, System.Suspend, System.Delete;
      match op
      case Create(_, env) => CreateAgrees(s, u, env);
      case Wake(_, env) => if u in s.store { WakeUpAgrees(s, u, env); }
      case Suspend(_, env) => SuspendAgrees(s, u, env);
      case Delete(_, env) => DeleteAgreesIff(s, u, env);
      case _ =>
    }
  }

  /** In every reliable run the store agrees with the world about every user, after every operation. */
  lemma {:induction false} StoreAgreesWithWorld(site: Site, ops: seq<Op>, u: string)
    requires Lawful(NewSystem(site), ops)
    requires forall k :: 0 <= k < |ops| ==> Reliable(ops[k])
    ensures Agrees(Run(NewSystem(site), ops), u)
    decreases |ops|
  {
    if ops != [] {
      StoreAgreesWithWorld(site, ops[..|ops| - 1], u);
      RunConsistent(site, ops[..|ops| - 1]);
      StepAgrees(Run(NewSystem(site), ops[..|ops| - 1]), ops[|ops| - 1], u);
    }
  }
}
