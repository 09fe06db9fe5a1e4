/**
 The manager on the heap: the lifecycle operations as they edit records in place and drive store,
 cache, provider and gateway one call after another, with an early return at each failure. Every
 operation has exactly the effect and the answer of its function in `Lifecycle`.
 */
module Manager {
  import opened Options
  import opened Lifecycle
  import opened Store
  import opened Backends

  /** A result of the provider on its share, as one on the whole system. */
  function Around<R>(s: System, result: (System, R)): (System, R) {
    (s.(sbxs := result.0.sbxs, cloud := result.0.cloud), result.1)
  }

  function Share(s: System): System {
    NewSystem(s.site).(sbxs := s.sbxs, cloud := s.cloud)
  }

  /** The provider's functions neither read nor change anything but its share. */
  lemma ProviderIsLocal(s: System, u: string, c: Creation, reach: Reach)
    ensures s.ProviderCreate(u, c) == Around(s, Share(s).ProviderCreate(u, c))
    ensures s.ProviderStart(u, reach) == Around(s, Share(s).ProviderStart(u, reach))
    ensures s.ProviderStop(u, reach) == Around(s, Share(s).ProviderStop(u, reach))
    ensures s.ProviderDelete(u, reach) == Around(s, Share(s).ProviderDelete(u, reach))
  {
  }

  class Manager {
    const store: Memory
    const cache: MemoryCache
    const backend: Provider
    const gateway: Gateway

    ghost predicate Valid()
      reads this, store, store.Repr, gateway.registry
    {
      && store.Valid() && {cache, backend, backend.platform, gateway, gateway.registry, this} !! store.Repr
      && gateway.registry.Valid()
    }

    ghost function Footprint(): set<object>
      reads this, store
    {
      store.Repr + {cache, backend, backend.platform, gateway, gateway.registry}
    }

    ghost function View(): System
      requires Valid()
      reads this, store, store.Repr, cache, backend, backend.platform, gateway, gateway.registry
    {
      System(backend.site, store.Records(), store.Activities(), cache.data, backend.sbxs,
             gateway.registry.endpoints, backend.platform.sandboxes, gateway.pushes)
    }

    ghost function ReplyOf(inst: Instance?, fault: Option<Fault>): Reply
      reads inst
    {
      Reply(if inst == null then None else Some(inst.Value()), fault)
    }

    constructor (site: Site)
      ensures Valid() && fresh(Footprint()) && View() == NewSystem(site)
    {
      var platform := new Platform();
      var registry := new Registry();
      store := new Memory();
      cache := new MemoryCache(HOUR);
      backend := new Provider(site, platform);
      gateway := new Gateway(registry);
    }

    // The provider's calls, seen from the whole system.

    method CreateSandbox(u: string, c: Creation) returns (r: Result<Info, Fault>)
      requires Valid()
      modifies backend, backend.platform
      ensures Valid() && (View(), r) == old(View()).ProviderCreate(u, c)
    {
      ProviderIsLocal(View(), u, c, Reach(true, true));
      r := backend.Create(u, c);
    }

    method StartSandbox(u: string, reach: Reach) returns (r: Result<Info, Fault>)
      requires Valid()
      modifies backend, backend.platform
      ensures Valid() && (View(), r) == old(View()).ProviderStart(u, reach)
    {
      ProviderIsLocal(View(), u, Creation("", false, false), reach);
      r := backend.Start(u, reach);
    }

    method StopSandbox(u: string, reach: Reach) returns (fault: Option<Fault>)
      requires Valid()
      modifies backend, backend.platform
      ensures Valid() && (View(), fault) == old(View()).ProviderStop(u, reach)
    {
      ProviderIsLocal(View(), u, Creation("", false, false), reach);
      fault := backend.Stop(u, reach);
    }

    method DeleteSandbox(u: string, reach: Reach) returns (fault: Option<Fault>)
      requires Valid()
      modifies backend, backend.platform
      ensures Valid() && (View(), fault) == old(View()).ProviderDelete(u, reach)
    {
      ProviderIsLocal(View(), u, Creation("", false, false), reach);
      fault := backend.Delete(u, reach);
    }

    // The gateway's calls.

    method RegisterRoute(u: string, endpoint: string, works: bool)
      requires Valid()
      modifies gateway.registry
      ensures Valid() && View() == old(View()).RegisterRoute(u, endpoint, works)
    {
      var logged := gateway.Register(u, endpoint, works);
    }

    method Unroute(u: string, works: bool)
      requires Valid()
      modifies gateway.registry
      ensures Valid()
      ensures View() == old(View()).(routes := if works then old(View()).routes - {u} else old(View()).routes)
    {
      var ignored := gateway.Unregister(u, works);
    }

    method Inject(u: string, cfg: ModelConfig, works: bool) returns (ok: bool)
      requires Valid()
      modifies gateway
      ensures Valid() && View() == old(View()).Pushed(u, cfg) && ok == works
    {
      ok := gateway.SetConfig(u, cfg, works);
    }

    // The cache's and the store's calls.

    method DropConfig(u: string)
      requires Valid()
      modifies cache
      ensures Valid() && View() == old(View()).(cache := old(View()).cache - {u})
    {
      cache.Delete(u);
    }

    method CacheConfig(u: string, cfg: ModelConfig, now: int)
      requires Valid()
      modifies cache
      ensures Valid()
      ensures View() == old(View()).(cache := old(View()).cache[u := CacheEntry(cfg, now + HOT_CONFIG_TTL)])
    {
      cache.Set(u, cfg, HOT_CONFIG_TTL, now);
    }

    method TouchActivity(u: string, now: int)
      requires Valid()
      modifies store.Repr
      ensures Valid() && fresh(store.Repr - old(store.Repr)) && old(store.Repr) <= store.Repr
      ensures View() == old(View()).Touch(u, now)
    {
      store.TouchActivity(u, now);
    }

    method SetWSConnections(u: string, n: int, now: int)
      requires Valid()
      modifies store.Repr
      ensures Valid() && fresh(store.Repr - old(store.Repr)) && old(store.Repr) <= store.Repr
      ensures View() == old(View()).SetWSConnections(u, n, now)
    {
      store.SetWSConnections(u, n, now);
    }

    method GetActivity(u: string, now: int) returns (act: Activity)
      requires Valid()
      ensures fresh(act) && act.Value() == View().ActivityOf(u, now)
    {
      act := store.GetActivity(u, now);
    }

    method List() returns (out: seq<Instance>)
      requires Valid()
      ensures forall k :: 0 <= k < |out| ==> fresh(out[k])
      ensures forall k :: 0 <= k < |out| ==>
                            out[k].userID in View().store && out[k].Value() == View().store[out[k].userID]
      ensures forall u :: u in View().store ==> exists k :: 0 <= k < |out| && out[k].userID == u
      ensures forall j, k :: 0 <= j < k < |out| ==> Before(out[j].userID, out[k].userID)
    {
      out := store.ListInstances();
    }

    /** A private copy of the user's record. */
    method Get(u: string) returns (inst: Instance?)
      requires Valid()
      ensures inst == null <==> u !in View().store
      ensures inst != null ==> fresh(inst) && inst !in store.Repr && inst.userID == u && inst.Value() == View().store[u]
    {
      inst := store.GetInstance(u);
    }

    method CreateRecord(inst: Instance)
      requires Valid() && inst !in store.Repr
      modifies store
      ensures Valid() && fresh(store.Repr - old(store.Repr)) && inst !in store.Repr
      ensures View() == old(View()).Record(inst.userID, inst.Value()).0
    {
      store.CreateInstance(inst);
    }

    method UpdateRecord(inst: Instance)
      requires Valid() && inst !in store.Repr && inst.userID in View().store
      modifies store
      ensures Valid() && fresh(store.Repr - old(store.Repr)) && inst !in store.Repr
      ensures View() == old(View()).Record(inst.userID, inst.Value()).0
    {
      var found := store.UpdateInstance(inst);
    }

    method DeleteRecord(u: string)
      requires Valid()
      modifies store
      ensures Valid() && store.Repr == old(store.Repr)
      ensures View() == old(View()).(store := old(View()).store - {u}, activity := old(View()).activity - {u})
    {
      store.DeleteInstance(u);
    }

    /** The hot configuration, and the seat service's when there is none to use. */
    method ResolveConfig(u: string, now: int, seat: Option<ModelConfig>) returns (cfg: Option<ModelConfig>)
      requires Valid()
      ensures cfg == View().ResolveConfig(u, now, seat)
    {
      var hot := cache.Get(u, now);
      if hot.Some? && hot.value.baseURL != "" {
        return hot;
      }
      cfg := seat;
    }

    /** The last lines of `failInstance`: update the record of a known user, create any other. */
    method Put(inst: Instance)
      requires Valid()
      modifies store
      ensures Valid() && fresh(store.Repr - old(store.Repr)) && old(store.Repr) <= store.Repr
      ensures store.Records() == old(store.Records())[inst.userID := inst.Value()]
      ensures store.Activities() == old(store.Activities())
    {
      var known := store.GetInstance(inst.userID);
      if known != null {
        var found := store.UpdateInstance(inst);
      } else {
        store.CreateInstance(inst);
      }
    }

    /** Edits the caller's own copy in place; the store does not see it. */
    method EditInstance(inst: Instance, status: Status, error: Option<Fault>, now: int, lastActiveAt: int)
      requires Valid() && inst !in store.Repr
      modifies inst
      ensures Valid() && View() == old(View())
      ensures inst.Value() ==
              old(inst.Value()).(status := status, error := error, updatedAt := now, lastActiveAt := lastActiveAt)
    {
      hide View;
      inst.status := status;
      inst.error := error;
      inst.updatedAt := now;
      inst.lastActiveAt := lastActiveAt;
    }

    /** Marks the caller's own record as failed and hands it to the store. */
    method FailInstance(inst: Instance, fault: Fault, now: int)
      requires Valid() && inst !in store.Repr
      modifies store, inst
      ensures Valid() && fresh(store.Repr - old(store.Repr)) && inst !in store.Repr
      ensures (View(), ReplyOf(inst, Some(fault))) == old(View()).Fail(old(inst.userID), old(inst.Value()), fault, now)
    {
      EditInstance(inst, Failed, Some(fault), now, inst.lastActiveAt);
      Put(inst);
    }

    method MarkAwake(inst: Instance, now: int)
      requires Valid() && inst !in store.Repr && inst.userID in View().store
      modifies store, inst
      ensures Valid() && fresh(store.Repr - old(store.Repr)) && inst !in store.Repr
      ensures var awake := old(inst.Value()).(status := Running, error := None, updatedAt := now, lastActiveAt := now);
              inst.Value() == awake && View() == old(View()).Record(old(inst.userID), awake).0
    {
      hide View;
      EditInstance(inst, Running, None, now, now);
      UpdateRecord(inst);
    }

    /** Kills the new sandbox again and records the failure. */
    method UndoCreate(inst: Instance, fault: Fault, env: Env)
      requires Valid() && inst !in store.Repr
      modifies store, backend, backend.platform, inst
      ensures Valid() && fresh(store.Repr - old(store.Repr)) && inst !in store.Repr
      ensures (View(), ReplyOf(inst, Some(fault))) ==
              var s := old(View()).ProviderDelete(old(inst.userID), env.undo).0;
              s.Fail(old(inst.userID), old(inst.Value()), fault, env.now)
    {
      hide View;
      var ignored := DeleteSandbox(inst.userID, env.undo);
      FailInstance(inst, fault, env.now);
    }

    /** The rest of `Create` once the provider has made a sandbox. */
    method Settle(inst: Instance, env: Env) returns (fault: Option<Fault>)
      requires Valid() && inst !in store.Repr
      modifies store, backend, backend.platform, gateway, gateway.registry, inst
      ensures Valid() && fresh(store.Repr - old(store.Repr)) && inst !in store.Repr
      ensures (View(), ReplyOf(inst, fault)) == old(View()).Settle(old(inst.userID), old(inst.Value()), env)
    {
      hide View;
      var u := inst.userID;
      if !env.healthy {
        UndoCreate(inst, Unhealthy, env);
        return Some(Unhealthy);
      }
      RegisterRoute(u, inst.endpoint, env.register);
      var cfg := ResolveConfig(u, env.now, env.seat);
      if cfg.None? {
        UndoCreate(inst, NoSeat, env);
        return Some(NoSeat);
      }
      var logged := Inject(u, cfg.value, env.inject);
      CreateRecord(inst);
      fault := None;
    }

    /** The rest of `wakeLocked` once the provider has connected the sandbox again. */
    method Rouse(inst: Instance, env: Env) returns (fault: Option<Fault>)
      requires Valid() && inst !in store.Repr && inst.userID in View().store
      modifies store, gateway, gateway.registry, inst
      ensures Valid() && fresh(store.Repr - old(store.Repr)) && inst !in store.Repr
      ensures (View(), ReplyOf(inst, fault)) == old(View()).Rouse(old(inst.userID), old(inst.Value()), env)
    {
      hide View;
      var u := inst.userID;
      if !env.healthy {
        FailInstance(inst, Unhealthy, env.now);
        return Some(Unhealthy);
      }
      RegisterRoute(u, inst.endpoint, env.register);
      var cfg := ResolveConfig(u, env.now, env.seat);
      if cfg.None? {
        FailInstance(inst, NoSeat, env.now);
        return Some(NoSeat);
      }
      var logged := Inject(u, cfg.value, env.inject);
      MarkAwake(inst, env.now);
      fault := None;
    }

    method PlaceInstance(inst: Instance, info: Info)
      requires Valid() && inst !in store.Repr
      modifies inst
      ensures inst.Value() == Placed(old(inst.Value()), info) && View() == old(View()) && Valid()
    {
      inst.workspace := info.workspace;
      inst.endpoint := info.endpoint;
      inst.port := info.port;
    }

    /** `Create` from the new record on. */
    method Make(u: string, env: Env) returns (inst: Instance, fault: Option<Fault>)
      requires Valid()
      modifies store, backend, backend.platform, gateway, gateway.registry
      ensures Valid() && fresh(store.Repr - old(store.Repr)) && fresh(inst) && inst !in store.Repr
      ensures (View(), ReplyOf(inst, fault)) == old(View()).Make(u, env)
    {
      hide View;
      inst := new Instance(FreshInstance(u, env.now));
      var made := CreateSandbox(u, env.creation);
      if made.Err? {
        FailInstance(inst, made.error, env.now);
        return inst, Some(made.error);
      }
      PlaceInstance(inst, made.value);
      fault := Settle(inst, env);
    }

    method WakeLocked(inst: Instance, env: Env) returns (fault: Option<Fault>)
      requires Valid() && inst !in store.Repr && inst.userID in View().store
      modifies store, backend, backend.platform, gateway, gateway.registry, inst
      ensures Valid() && fresh(store.Repr - old(store.Repr)) && inst !in store.Repr
      ensures (View(), ReplyOf(inst, fault)) == old(View()).WakeUp(old(inst.userID), old(inst.Value()), env)
    {
      hide View;
      if inst.status == Running {
        return None;
      }
      var started := StartSandbox(inst.userID, env.reach);
      if started.Err? {
        FailInstance(inst, started.error, env.now);
        return Some(started.error);
      }
      PlaceInstance(inst, started.value);
      fault := Rouse(inst, env);
    }

    method Create(u: string, env: Env) returns (inst: Instance?, fault: Option<Fault>)
      requires Valid()
      modifies store, backend, backend.platform, gateway, gateway.registry
      ensures Valid() && fresh(store.Repr - old(store.Repr))
      ensures inst != null ==> fresh(inst) && inst !in store.Repr
      ensures (View(), ReplyOf(inst, fault)) == old(View()).Create(u, env)
    {
      hide View;
      if !ValidUserID(u) {
        return null, Some(InvalidUser);
      }
      var known := Get(u);
      if known != null {
        if known.status == Running {
          return known, None;
        }
        if known.status == Suspended {
          fault := WakeLocked(known, env);
          return known, fault;
        }
        if known.status == Failed {
          var ignored := DeleteSandbox(u, env.cleanup);
        }
      }
      inst, fault := Make(u, env);
    }

    method Wake(u: string, env: Env) returns (inst: Instance?, fault: Option<Fault>)
      requires Valid()
      modifies store, backend, backend.platform, gateway, gateway.registry
      ensures Valid() && fresh(store.Repr - old(store.Repr))
      ensures inst != null ==> fresh(inst) && inst !in store.Repr
      ensures (View(), ReplyOf(inst, fault)) == old(View()).Wake(u, env)
    {
      hide View;
      inst := Get(u);
      if inst == null {
        return null, Some(NotFound);
      }
      fault := WakeLocked(inst, env);
    }

    method Suspend(u: string, env: Env) returns (inst: Instance?, fault: Option<Fault>)
      requires Valid()
      modifies store, cache, backend, backend.platform
      ensures Valid() && fresh(store.Repr - old(store.Repr))
      ensures inst != null ==> fresh(inst) && inst !in store.Repr
      ensures (View(), ReplyOf(inst, fault)) == old(View()).Suspend(u, env)
    {
      hide View;
      inst := Get(u);
      if inst == null {
        return null, Some(NotFound);
      }
      if inst.status != Running {
        return inst, Some(WrongStatus(inst.status));
      }
      var stopped := StopSandbox(u, env.reach);
      if stopped.Some? {
        return null, stopped;
      }
      DropConfig(u);
      MarkAsleep(inst, env.now);
      fault := None;
    }

    method MarkAsleep(inst: Instance, now: int)
      requires Valid() && inst !in store.Repr && inst.userID in View().store
      modifies store, inst
      ensures Valid() && fresh(store.Repr - old(store.Repr)) && inst !in store.Repr
      ensures var asleep := old(inst.Value()).(status := Suspended, updatedAt := now);
              inst.Value() == asleep && View() == old(View()).Record(old(inst.userID), asleep).0
    {
      hide View;
      EditInstance(inst, Suspended, inst.error, now, inst.lastActiveAt);
      UpdateRecord(inst);
    }

    method Delete(u: string, env: Env) returns (fault: Option<Fault>)
      requires Valid()
      modifies store, cache, backend, backend.platform, gateway.registry
      ensures Valid() && store.Repr == old(store.Repr)
      ensures (View(), Reply(None, fault)) == old(View()).Delete(u, env)
    {
      hide View;
      fault := DeleteSandbox(u, env.reach);
      if fault.Some? {
        return;
      }
      Erase(u, env.unregister);
    }

    method Erase(u: string, unregister: bool)
      requires Valid()
      modifies store, cache, gateway.registry
      ensures Valid() && store.Repr == old(store.Repr)
      ensures View() == old(View()).Erase(u, unregister)
    {
      hide View;
      Unroute(u, unregister);
      DropConfig(u);
      DeleteRecord(u);
    }

    method SetModelConfig(u: string, cfg: ModelConfig, env: Env) returns (inst: Instance?, fault: Option<Fault>)
      requires Valid()
      modifies store.Repr, cache, gateway
      ensures Valid() && fresh(store.Repr - old(store.Repr))
      ensures inst != null ==> fresh(inst) && inst !in store.Repr
      ensures (View(), ReplyOf(inst, fault)) == old(View()).SetModelConfig(u, cfg, env)
    {
      hide View;
      inst := Get(u);
      if inst == null {
        return null, Some(NotFound);
      }
      if inst.status != Running {
        var status := inst.status;
        return null, Some(WrongStatus(status));
      }
      var injected := Inject(u, cfg, env.inject);
      if !injected {
        return null, Some(GatewayFailed);
      }
      CacheConfig(u, cfg, env.now);
      TouchActivity(u, env.now);
      fault := None;
    }

    method LoseSandbox(id: string)
      requires Valid()
      modifies backend.platform
      ensures Valid() && View() == Step(old(View()), Vanish(id))
    {
      backend.platform.Vanish(id);
    }

    /** Any operation, as a request to the control plane. */
    method Perform(op: Op)
      requires Valid()
      modifies store, store.Repr, cache, backend, backend.platform, gateway, gateway.registry
      ensures Valid() && fresh(store.Repr - old(store.Repr))
      ensures View() == Step(old(View()), op)
    {
      hide View;
      match op
      case Create(u, env) => var inst, fault := Create(u, env);
      case Suspend(u, env) => var inst, fault := Suspend(u, env);
      case Wake(u, env) => var inst, fault := Wake(u, env);
      case Delete(u, env) => var fault := Delete(u, env);
      case SetModelConfig(u, cfg, env) => var inst, fault := SetModelConfig(u, cfg, env);
      case Touch(u, now) => TouchActivity(u, now);
      case SetWSConnections(u, n, now) => SetWSConnections(u, n, now);
      case Vanish(id) => LoseSandbox(id);
    }
  }
}
