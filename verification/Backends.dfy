/** The parts the manager drives besides the store: the gateway's routes and the e2b provider. */
module Backends {
  import opened Options
  import opened Lifecycle

  /** What has been asked of the route table. */
  datatype RouteEvent = Routed(userID: string, endpoint: string) | Unrouted(userID: string)

  /** The endpoint u was registered with last, unless he was unregistered after that. */
  function LatestRoute(events: seq<RouteEvent>, u: string): Option<string> {
    if events == [] then None
    else
      var e := events[|events| - 1];
      if e.userID != u then LatestRoute(events[..|events| - 1], u)
      else if e.Routed? then Some(e.endpoint) else None
  }

  /** The gateway's route table. */
  class Registry {
    var endpoints: map<string, string>
    ghost var events: seq<RouteEvent>

    ghost predicate Valid()
      reads this
    {
      forall u {:trigger LatestRoute(events, u)} ::
        LatestRoute(events, u) == if u in endpoints then Some(endpoints[u]) else None
    }

    constructor ()
      ensures Valid() && endpoints == map[] && events == []
    {
      endpoints, events := map[], [];
    }

    method Register(userID: string, endpoint: string)
      requires Valid()
      modifies this
      ensures Valid() && events == old(events) + [Routed(userID, endpoint)]
      ensures endpoints == old(endpoints)[userID := endpoint]
    {
      endpoints := endpoints[userID := endpoint];
      events := events + [Routed(userID, endpoint)];
      assert events[..|events| - 1] == old(events);
    }

    method Unregister(userID: string)
      requires Valid()
      modifies this
      ensures Valid() && events == old(events) + [Unrouted(userID)]
      ensures endpoints == old(endpoints) - {userID}
    {
      endpoints := endpoints - {userID};
      events := events + [Unrouted(userID)];
      assert events[..|events| - 1] == old(events);
    }

    /** The latest registration that was not taken back. */
    method Resolve(userID: string) returns (endpoint: Option<string>)
      requires Valid()
      ensures endpoint == LatestRoute(events, userID)
    {
      assert LatestRoute(events, userID) == if userID in endpoints then Some(endpoints[userID]) else None;
      endpoint := if userID in endpoints then Some(endpoints[userID]) else None;
    }

    method Snapshot() returns (out: map<string, string>)
      ensures out == endpoints
    {
      out := map[];
      var todo := endpoints.Keys;
      while todo != {}
        invariant todo <= endpoints.Keys
        invariant out == map u | u in endpoints && u !in todo :: endpoints[u]
        decreases todo
      {
        var u :| u in todo;
        out := out[u := endpoints[u]];
        todo := todo - {u};
      }
    }
  }

  /** The manager's client of the gateway. Each call may fail on the way. */
  class Gateway {
    const registry: Registry
    ghost var pushes: seq<Push>

    constructor (registry: Registry)
      ensures this.registry == registry && pushes == []
    {
      this.registry := registry;
      pushes := [];
    }

    method Register(userID: string, endpoint: string, works: bool) returns (ok: bool)
      requires registry.Valid()
      modifies registry
      ensures registry.Valid() && ok == works
      ensures registry.endpoints ==
              if works then old(registry.endpoints)[userID := endpoint] else old(registry.endpoints)
    {
      if works {
        registry.Register(userID, endpoint);
      }
      ok := works;
    }

    method Unregister(userID: string, works: bool) returns (ok: bool)
      requires registry.Valid()
      modifies registry
      ensures registry.Valid() && ok == works
      ensures registry.endpoints == if works then old(registry.endpoints) - {userID} else old(registry.endpoints)
    {
      if works {
        registry.Unregister(userID);
      }
      ok := works;
    }

    method SetConfig(userID: string, cfg: ModelConfig, works: bool) returns (ok: bool)
      modifies this
      ensures ok == works && pushes == old(pushes) + [Push(userID, cfg)]
    {
      pushes := pushes + [Push(userID, cfg)];
      ok := works;
    }
  }

  /** The sandbox platform, and what of its calls takes effect. */
  class Platform {
    var sandboxes: map<string, Sandbox>

    constructor ()
      ensures sandboxes == map[]
    {
      sandboxes := map[];
    }

    predicate Alive(id: string)
      reads this
    {
      id in sandboxes && sandboxes[id].phase != Killed
    }

    method Create(owner: string, c: Creation) returns (ok: bool)
      modifies this
      ensures ok == c.created
      ensures sandboxes == if ok then old(sandboxes)[c.sandboxID := Sandbox(owner, Up)] else old(sandboxes)
    {
      if c.created {
        sandboxes := sandboxes[c.sandboxID := Sandbox(owner, Up)];
      }
      ok := c.created;
    }

    /** Works only on a sandbox that still exists, and resumes it. */
    method Connect(id: string, works: bool) returns (ok: bool)
      modifies this
      ensures ok == (works && old(Alive(id)))
      ensures ok ==> id in old(sandboxes)
      ensures sandboxes == if ok then old(sandboxes)[id := old(sandboxes)[id].(phase := Up)] else old(sandboxes)
    {
      ok := works && Alive(id);
      if ok {
        sandboxes := sandboxes[id := sandboxes[id].(phase := Up)];
      }
    }

    /** The platform reclaims a sandbox by itself. */
    method Vanish(id: string)
      modifies this
      ensures sandboxes == if id in old(sandboxes) then old(sandboxes)[id := old(sandboxes)[id].(phase := Killed)]
                           else old(sandboxes)
    {
      if id in sandboxes {
        sandboxes := sandboxes[id := sandboxes[id].(phase := Killed)];
      }
    }

    /** Pause or Kill on a connected sandbox. */
    method Enter(id: string, phase: Phase, works: bool) returns (ok: bool)
      requires id in sandboxes
      modifies this
      ensures ok == works
      ensures sandboxes == if ok then old(sandboxes)[id := old(sandboxes)[id].(phase := phase)] else old(sandboxes)
    {
      if works {
        sandboxes := sandboxes[id := sandboxes[id].(phase := phase)];
      }
      ok := works;
    }
  }

  /** The e2b provider: which sandbox belongs to whom, kept around the platform's calls. */
  class Provider {
    const site: Site
    const platform: Platform
    var sbxs: map<string, string>

    constructor (site: Site, platform: Platform)
      ensures this.site == site && this.platform == platform && sbxs == map[]
    {
      this.site := site;
      this.platform := platform;
      sbxs := map[];
    }

    /** The provider's share of the system, in an otherwise empty one. */
    ghost function View(): System
      reads this, platform
    {
      NewSystem(site).(sbxs := sbxs, cloud := platform.sandboxes)
    }

    method Create(u: string, c: Creation) returns (r: Result<Info, Fault>)
      modifies this, platform
      ensures (View(), r) == old(View()).ProviderCreate(u, c)
    {
      var created := platform.Create(u, c);
      if !created {
        return Err(CreateFailed);
      }
      sbxs := sbxs[u := c.sandboxID];
      if !c.ready {
        return Err(NotReady);
      }
      r := Ok(site.InfoOf(u, c.sandboxID));
    }

    method Start(u: string, reach: Reach) returns (r: Result<Info, Fault>)
      modifies this, platform
      ensures (View(), r) == old(View()).ProviderStart(u, reach)
    {
      if u !in sbxs {
        return Err(UnknownSandbox);
      }
      var connected := platform.Connect(sbxs[u], reach.connect);
      if !connected {
        return Err(ConnectFailed);
      }
      if !reach.next {
        return Err(NotReady);
      }
      r := Ok(site.InfoOf(u, sbxs[u]));
    }

    method Stop(u: string, reach: Reach) returns (fault: Option<Fault>)
      modifies this, platform
      ensures (View(), fault) == old(View()).ProviderStop(u, reach)
    {
      if u !in sbxs {
        return None;
      }
      var connected := platform.Connect(sbxs[u], reach.connect);
      if !connected {
        return Some(ConnectFailed);
      }
      var paused := platform.Enter(sbxs[u], Paused, reach.next);
      assert paused ==> View().cloud == old(View()).WithPhase(sbxs[u], Paused).cloud;
      fault := if paused then None else Some(PauseFailed);
    }

    method Delete(u: string, reach: Reach) returns (fault: Option<Fault>)
      modifies this, platform
      ensures (View(), fault) == old(View()).ProviderDelete(u, reach)
    {
      if u !in sbxs {
        return None;
      }
      var connected := platform.Connect(sbxs[u], reach.connect);
      if !connected {
        sbxs := sbxs - {u};
        return None;
      }
      var killed := platform.Enter(sbxs[u], Killed, reach.next);
      assert killed ==> View().cloud == old(View()).WithPhase(sbxs[u], Killed).cloud;
      if !killed {
        return Some(KillFailed);
      }
      sbxs := sbxs - {u};
      fault := None;
    }
  }
}
