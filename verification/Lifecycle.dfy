/**
 The sandbox lifecycle as functions on one value: the instance store, the config cache, the e2b
 provider's table, the gateway's routes and the sandboxes that exist at the platform.

 Every call that leaves the control plane may fail, and an `Env` says which calls of one operation
 do. A call that fails has no effect of its own, but what was done before it stays done.
 */
module Lifecycle {
  import opened Options
  import opened RequestKeys

  // --- Values ----------------------------------------------------------------------------

  datatype Status = NoStatus | Running | Suspended | Failed

  datatype Fault =
    | InvalidUser | NotFound | WrongStatus(status: Status)
    | CreateFailed | UnknownSandbox | ConnectFailed | NotReady | Unhealthy | PauseFailed | KillFailed
    | NoSeat | GatewayFailed

  datatype InstanceValue = InstanceValue(
    userID: string,
    instanceName: string,
    status: Status,
    workspace: string,
    endpoint: string,
    port: int,
    sandboxID: string,
    error: Option<Fault>,
    lastActiveAt: int,
    wsConnections: int,
    createdAt: int,
    updatedAt: int)

  datatype ActivityValue = ActivityValue(userID: string, wsConnections: int, lastActiveAt: int)

  datatype ModelConfig = ModelConfig(
    baseURL: string, apiKey: string, model: string, models: seq<string>, provider: string)

  datatype CacheEntry = CacheEntry(cfg: ModelConfig, expireAt: int)

  datatype Info = Info(userID: string, workspace: string, endpoint: string, port: int, sandboxID: string)

  /** A sandbox at the platform. A killed one stays known, so that ids are never reused. */
  datatype Phase = Up | Paused | Killed

  datatype Sandbox = Sandbox(owner: string, phase: Phase)

  /** A configuration handed to the gateway for a user. */
  datatype Push = Push(userID: string, cfg: ModelConfig)

  /** What the manager's methods return: an instance, an error, or both. */
  datatype Reply = Reply(inst: Option<InstanceValue>, fault: Option<Fault>)

  const HOUR := 3_600_000_000_000
  const HOT_CONFIG_TTL := 24 * HOUR

  /** Where the data plane reaches sandboxes. */
  datatype Site = Site(baseURL: string, agentPort: nat)
  {
    function Endpoint(sandboxID: string): string {
      TrimRightSlashes(baseURL) + "/sandboxes/" + sandboxID + "/port/" + Decimal(agentPort)
    }

    function InfoOf(userID: string, sandboxID: string): Info {
      Info(userID, "users/" + userID, Endpoint(sandboxID), agentPort, sandboxID)
    }
  }

  function TrimRightSlashes(s: string): string {
    if s != "" && s[|s| - 1] == '/' then TrimRightSlashes(s[..|s| - 1]) else s
  }

  predicate AlphaNumeric(c: char) {
    'a' <= c <= 'z' || 'A' <= c <= 'Z' || '0' <= c <= '9'
  }

  predicate ValidUserID(userID: string) {
    && 0 < |userID| <= 63
    && AlphaNumeric(userID[0])
    && forall i :: 1 <= i < |userID| ==> AlphaNumeric(userID[i]) || userID[i] in "._-"
  }

  // --- What the outside world does during one operation -------------------------------------

  /** Whether `Connect` works, and whether the call after it (GetInfo, Pause or Kill) does. */
  datatype Reach = Reach(connect: bool, next: bool)

  datatype Creation = Creation(sandboxID: string, created: bool, ready: bool)

  datatype Env = Env(
    now: int,
    cleanup: Reach,             // killing what a failed instance left, before creating anew
    creation: Creation,
    reach: Reach,               // the one sandbox call of Start, Stop or Delete
    healthy: bool,
    register: bool,
    unregister: bool,
    seat: Option<ModelConfig>,
    inject: bool,
    undo: Reach)                // killing the new sandbox when a later step of Create failed

  datatype System = System(
    site: Site,
    store: map<string, InstanceValue>,
    activity: map<string, ActivityValue>,
    cache: map<string, CacheEntry>,
    sbxs: map<string, string>,
    routes: map<string, string>,
    cloud: map<string, Sandbox>,
    pushes: seq<Push>)
  {
    // --- The platform --------------------------------------------------------------------

    predicate Alive(sandboxID: string) {
      sandboxID in cloud && cloud[sandboxID].phase != Killed
    }

    /** `Connect` can only work on a sandbox that still exists; it resumes a paused one. */
    predicate Connects(sandboxID: string, reach: Reach) {
      reach.connect && Alive(sandboxID)
    }

    function WithPhase(sandboxID: string, phase: Phase): System
      requires sandboxID in cloud
    {
      this.(cloud := cloud[sandboxID := cloud[sandboxID].(phase := phase)])
    }

    // --- The e2b provider ----------------------------------------------------------------

    function ProviderCreate(u: string, c: Creation): (System, Result<Info, Fault>) {
      if !c.created then (this, Err(CreateFailed))
      else
        var s := this.(cloud := cloud[c.sandboxID := Sandbox(u, Up)], sbxs := sbxs[u := c.sandboxID]);
        if c.ready then (s, Ok(site.InfoOf(u, c.sandboxID))) else (s, Err(NotReady))
    }

    function ProviderStart(u: string, reach: Reach): (System, Result<Info, Fault>) {
      if u !in sbxs then (this, Err(UnknownSandbox))
      else if !Connects(sbxs[u], reach) then (this, Err(ConnectFailed))
      else
        (WithPhase(sbxs[u], Up), if reach.next then Ok(site.InfoOf(u, sbxs[u])) else Err(NotReady))
    }

    function ProviderStop(u: string, reach: Reach): (System, Option<Fault>) {
      if u !in sbxs then (this, None)
      else if !Connects(sbxs[u], reach) then (this, Some(ConnectFailed))
      else if !reach.next then (WithPhase(sbxs[u], Up), Some(PauseFailed))
      else (WithPhase(sbxs[u], Paused), None)
    }

    function ProviderDelete(u: string, reach: Reach): (System, Option<Fault>) {
      if u !in sbxs then (this, None)
      else if !Connects(sbxs[u], reach) then (this.(sbxs := sbxs - {u}), None)
      else if !reach.next then (WithPhase(sbxs[u], Up), Some(KillFailed))
      else (WithPhase(sbxs[u], Killed).(sbxs := sbxs - {u}), None)
    }

    // --- The manager -----------------------------------------------------------------------

    function RegisterRoute(u: string, endpoint: string, works: bool): System {
      if works then this.(routes := routes[u := endpoint]) else this
    }

    /** The hot configuration if it is cached, unexpired and usable, and otherwise the seat's. */
    function ResolveConfig(u: string, now: int, seat: Option<ModelConfig>): Option<ModelConfig> {
      if u in cache && now <= cache[u].expireAt && cache[u].cfg.baseURL != "" then Some(cache[u].cfg) else seat
    }

    function Pushed(u: string, cfg: ModelConfig): System {
      this.(pushes := pushes + [Push(u, cfg)])
    }

    function Fail(u: string, inst: InstanceValue, fault: Fault, now: int): (System, Reply) {
      var failed := inst.(status := Failed, error := Some(fault), updatedAt := now);
      (Record(u, failed).0, Reply(Some(failed), Some(fault)))
    }

    function Create(u: string, env: Env): (System, Reply) {
      if !ValidUserID(u) then (this, Reply(None, Some(InvalidUser)))
      else if u !in store then Make(u, env)
      else match store[u].status
        case Running => (this, Reply(Some(store[u]), None))
        case Suspended => WakeUp(u, store[u], env)
        case Failed => ProviderDelete(u, env.cleanup).0.Make(u, env)
        case NoStatus => Make(u, env)
    }

    function Make(u: string, env: Env): (System, Reply) {
      var inst := FreshInstance(u, env.now);
      var (s1, made) := ProviderCreate(u, env.creation);
      if made.Err? then s1.Fail(u, inst, made.error, env.now)
      else s1.Settle(u, Placed(inst, made.value), env)
    }

    /** `Create` once the sandbox is there: health, route, configuration and record. */
    function Settle(u: string, placed: InstanceValue, env: Env): (System, Reply) {
      if !env.healthy then ProviderDelete(u, env.undo).0.Fail(u, placed, Unhealthy, env.now)
      else
        var routed := RegisterRoute(u, placed.endpoint, env.register);
        var cfg := routed.ResolveConfig(u, env.now, env.seat);
        if cfg.None? then routed.ProviderDelete(u, env.undo).0.Fail(u, placed, NoSeat, env.now)
        else routed.Pushed(u, cfg.value).Record(u, placed)
    }

    function Record(u: string, inst: InstanceValue): (System, Reply) {
      (this.(store := store[u := inst]), Reply(Some(inst), None))
    }

    function Wake(u: string, env: Env): (System, Reply) {
      if u !in store then (this, Reply(None, Some(NotFound))) else WakeUp(u, store[u], env)
    }

    function WakeUp(u: string, inst: InstanceValue, env: Env): (System, Reply) {
      if inst.status == Running then (this, Reply(Some(inst), None))
      else
        var (s1, started) := ProviderStart(u, env.reach);
        if started.Err? then s1.Fail(u, inst, started.error, env.now)
        else s1.Rouse(u, Placed(inst, started.value), env)
    }

    /** `wakeLocked` once the sandbox is connected again. */
    function Rouse(u: string, placed: InstanceValue, env: Env): (System, Reply) {
      if !env.healthy then Fail(u, placed, Unhealthy, env.now)
      else
        var routed := RegisterRoute(u, placed.endpoint, env.register);
        var cfg := routed.ResolveConfig(u, env.now, env.seat);
        if cfg.None? then routed.Fail(u, placed, NoSeat, env.now)
        else
          var awake := placed.(status := Running, error := None, updatedAt := env.now, lastActiveAt := env.now);
          routed.Pushed(u, cfg.value).Record(u, awake)
    }

    function Suspend(u: string, env: Env): (System, Reply) {
      if u !in store then (this, Reply(None, Some(NotFound)))
      else if store[u].status != Running then (this, Reply(Some(store[u]), Some(WrongStatus(store[u].status))))
      else
        var (s1, fault) := ProviderStop(u, env.reach);
        if fault.Some? then (s1, Reply(None, fault))
        else
          var asleep := store[u].(status := Suspended, updatedAt := env.now);
          (s1.(cache := cache - {u}, store := store[u := asleep]), Reply(Some(asleep), None))
    }

    function Delete(u: string, env: Env): (System, Reply) {
      var (s1, fault) := ProviderDelete(u, env.reach);
      if fault.Some? then (s1, Reply(None, fault))
      else
        (s1.Erase(u, env.unregister), Reply(None, None))
    }

    function Erase(u: string, unregister: bool): System {
      this.(routes := if unregister then routes - {u} else routes,
      cache := cache - {u}, store := store - {u}, activity := activity - {u})
    }

    function SetModelConfig(u: string, cfg: ModelConfig, env: Env): (System, Reply) {
      if u !in store then (this, Reply(None, Some(NotFound)))
      else if store[u].status != Running then (this, Reply(None, Some(WrongStatus(store[u].status))))
      else if !env.inject then (Pushed(u, cfg), Reply(None, Some(GatewayFailed)))
      else
        (Pushed(u, cfg).(cache := cache[u := CacheEntry(cfg, env.now + HOT_CONFIG_TTL)]).Touch(u, env.now),
         Reply(Some(store[u]), None))
    }

    // --- The activity records --------------------------------------------------------------

    function ActivityOf(u: string, now: int): ActivityValue {
      if u in activity then activity[u] else ActivityValue(u, 0, now)
    }

    function Touch(u: string, now: int): System {
      this.(activity := activity[u := ActivityOf(u, now).(lastActiveAt := now)])
    }

    function SetWSConnections(u: string, n: int, now: int): System {
      this.(activity := activity[u := ActivityOf(u, now).(wsConnections := n, lastActiveAt := now)])
    }
  }

  function FreshInstance(u: string, now: int): InstanceValue {
    InstanceValue(u, "agent-" + u, Running, "", "", 0, "", None, now, 0, now, now)
  }

  /** The manager copies workspace, endpoint and port, and not the sandbox id. */
  function Placed(inst: InstanceValue, info: Info): InstanceValue {
    inst.(workspace := info.workspace, endpoint := info.endpoint, port := info.port)
  }

  function NewSystem(site: Site): System {
    System(site, map[], map[], map[], map[], map[], map[], [])
  }

  // --- Runs --------------------------------------------------------------------------------

  /** An operation of the control plane, or something the platform does to a sandbox by itself. */
  datatype Op =
    | Create(user: string, env: Env)
    | Suspend(user: string, env: Env)
    | Wake(user: string, env: Env)
    | Delete(user: string, env: Env)
    | SetModelConfig(user: string, cfg: ModelConfig, env: Env)
    | Touch(user: string, now: int)
    | SetWSConnections(user: string, n: int, now: int)
    | Vanish(sandboxID: string)

  function Effect(s: System, op: Op): (System, Reply) {
    match op
    case Create(u, env) => s.Create(u, env)
    case Suspend(u, env) => s.Suspend(u, env)
    case Wake(u, env) => s.Wake(u, env)
    case Delete(u, env) => s.Delete(u, env)
    case SetModelConfig(u, cfg, env) => s.SetModelConfig(u, cfg, env)
    case Touch(u, now) => (s.Touch(u, now), Reply(None, None))
    case SetWSConnections(u, n, now) => (s.SetWSConnections(u, n, now), Reply(None, None))
    case Vanish(id) => (if id in s.cloud then s.WithPhase(id, Killed) else s, Reply(None, None))
  }

  function Step(s: System, op: Op): System {
    Effect(s, op).0
  }

  function Run(s: System, ops: seq<Op>): System {
    if ops == [] then s else Step(Run(s, ops[..|ops| - 1]), ops[|ops| - 1])
  }

  /** The platform hands out an id only once. */
  predicate FreshID(s: System, op: Op) {
    op.Create? ==> op.env.creation.sandboxID !in s.cloud
  }

  predicate Lawful(s: System, ops: seq<Op>) {
    ops == [] ||
    (Lawful(s, ops[..|ops| - 1]) && FreshID(Run(s, ops[..|ops| - 1]), ops[|ops| - 1]))
  }

  lemma RunThen(s: System, ops: seq<Op>, op: Op)
    ensures Run(s, ops + [op]) == Step(Run(s, ops), op)
    ensures Lawful(s, ops + [op]) <==> Lawful(s, ops) && FreshID(Run(s, ops), op)
  {
    assert (ops + [op])[..|ops|] == ops;
  }
}
