/** What operations do to the activity records: nothing but what they are asked to write. */
module LifecycleActivity {
  import opened Options
  import opened Lifecycle

  /** The stored connection count. A user without a record has none. */
  function Connections(s: System, u: string): int {
    if u in s.activity then s.activity[u].wsConnections else 0
  }

  lemma ProviderKeepsActivity(s: System, u: string, c: Creation, reach: Reach)
    ensures s.ProviderCreate(u, c).0.activity == s.activity
    ensures s.ProviderDelete(u, reach).0.activity == s.activity
    ensures s.ProviderStart(u, reach).0.activity == s.activity
    ensures s.ProviderStop(u, reach).0.activity == s.activity
  {
  }

  lemma SettleKeepsActivity(s: System, u: string, placed: InstanceValue, env: Env)
    ensures s.Settle(u, placed, env).0.activity == s.activity
  {
    var routed := s.RegisterRoute(u, placed.endpoint, env.register);
    ProviderKeepsActivity(s, u, env.creation, env.undo);
    ProviderKeepsActivity(routed, u, env.creation, env.undo);
  }

  lemma MakeKeepsActivity(s: System, u: string, env: Env)
    ensures s.Make(u, env).0.activity == s.activity
  {
    var (s1, made) := s.ProviderCreate(u, env.creation);
    ProviderKeepsActivity(s, u, env.creation, env.undo);
    if made.Ok? {
      SettleKeepsActivity(s1, u, Placed(FreshInstance(u, env.now), made.value), env);
    }
  }

  lemma RouseKeepsActivity(s: System, u: string, placed: InstanceValue, env: Env)
    ensures s.Rouse(u, placed, env).0.activity == s.activity
  {
    hide System.ResolveConfig;
  }

  lemma WakeUpKeepsActivity(s: System, u: string, inst: InstanceValue, env: Env)
    ensures s.WakeUp(u, inst, env).0.activity == s.activity
  {
    hide System.ProviderStart, System.Rouse;
    ProviderKeepsActivity(s, u, env.creation, env.reach);
    var (s1, started) := s.ProviderStart(u, env.reach);
    if started.Ok? {
      RouseKeepsActivity(s1, u, Placed(inst, started.value), env);
    }
  }

  lemma CreateKeepsActivity(s: System, u: string, env: Env)
    ensures s.Create(u, env).0.activity == s.activity
  {
    hide System.Make, System.WakeUp, System.ProviderDelete;
    MakeKeepsActivity(s, u, env);
    ProviderKeepsActivity(s, u, env.creation, env.cleanup);
    MakeKeepsActivity(s.ProviderDelete(u, env.cleanup).0, u, env);
    if u in s.store {
      WakeUpKeepsActivity(s, u, s.store[u], env);
    }
  }

  lemma StopKeepsActivity(s: System, u: string, reach: Reach)
    ensures s.ProviderStop(u, reach).0.activity == s.activity
  {
  }

  lemma SuspendKeepsActivity(s: System, u: string, env: Env)
    ensures s.Suspend(u, env).0.activity == s.activity
  {
    hide System.ProviderStop;
    StopKeepsActivity(s, u, env.reach);
  }

  lemma DeleteActivity(s: System, u: string, env: Env)
    ensures var (t, reply) := s.Delete(u, env);
            t.activity == if reply.fault.None? then s.activity - {u} else s.activity
  {
    hide System.ProviderDelete;
    ProviderKeepsActivity(s, u, env.creation, env.reach);
  }

  /** What one operation makes of a stored count. */
  lemma ConnectionsStep(s: System, op: Op, u: string)
    ensures Connections(Step(s, op), u) ==
            if op.SetWSConnections? && op.user == u then op.n
            else if op.Delete? && op.user == u && Effect(s, op).1.fault.None? then 0
            else Connections(s, u)
  {
    hide System.Create, System.WakeUp, System.Suspend, System.Delete;
    match op
    case Create(v, env) => CreateKeepsActivity(s, v, env);
    case Wake(v, env) => if v in s.store { WakeUpKeepsActivity(s, v, s.store[v], env); }
    case Suspend(v, env) => SuspendKeepsActivity(s, v, env);
    case Delete(v, env) => DeleteActivity(s, v, env);
    case _ =>
  }

  /** The connection count last written for u since his latest successful Delete. */
  function LatestCount(s: System, ops: seq<Op>, u: string): int {
    if ops == [] then 0
    else
      var before, op := ops[..|ops| - 1], ops[|ops| - 1];
      if op.SetWSConnections? && op.user == u then op.n
      else if op.Delete? && op.user == u && Effect(Run(s, before), op).1.fault.None? then 0
      else LatestCount(s, before, u)
  }

  /** Over any run, whatever fails, the stored count is the one written last. */
  lemma {:induction false} StoredCountIsLatest(site: Site, ops: seq<Op>, u: string)
    ensures Connections(Run(NewSystem(site), ops), u) == LatestCount(NewSystem(site), ops, u)
    decreases |ops|
  {
    if ops != [] {
      StoredCountIsLatest(site, ops[..|ops| - 1], u);
      ConnectionsStep(Run(NewSystem(site), ops[..|ops| - 1]), ops[|ops| - 1], u);
    }
  }

  /** When u was last active, if he has an activity record. */
  function LastActive(s: System, u: string): Option<int> {
    if u in s.activity then Some(s.activity[u].lastActiveAt) else None
  }

  /** The time of u's latest touch, successful hot switch or written count since his latest successful Delete. */
  function LatestActivity(s: System, ops: seq<Op>, u: string): Option<int> {
    if ops == [] then None
    else
      var before, op := ops[..|ops| - 1], ops[|ops| - 1];
      match op
      case Touch(v, now) => if v == u then Some(now) else LatestActivity(s, before, u)
      case SetWSConnections(v, _, now) => if v == u then Some(now) else LatestActivity(s, before, u)
      case SetModelConfig(v, _, env) =>
        if v == u && Effect(Run(s, before), op).1.fault.None? then Some(env.now) else LatestActivity(s, before, u)
      case Delete(v, _) =>
        if v == u && Effect(Run(s, before), op).1.fault.None? then None else LatestActivity(s, before, u)
      case _ => LatestActivity(s, before, u)
  }

  lemma SwitchActivity(s: System, u: string, cfg: ModelConfig, env: Env)
    ensures var (t, reply) := s.SetModelConfig(u, cfg, env);
            && (reply.fault.Some? ==> t.activity == s.activity)
            && (reply.fault.None? ==>
                  u in t.activity && t.activity == s.activity[u := t.activity[u]]
                  && t.activity[u].lastActiveAt == env.now)
  {
  }

  lemma ActivityStep(s: System, op: Op, u: string)
    ensures LastActive(Step(s, op), u) ==
            match op
            case Touch(v, now) => if v == u then Some(now) else LastActive(s, u)
            case SetWSConnections(v, _, now) => if v == u then Some(now) else LastActive(s, u)
            case SetModelConfig(v, _, env) =>
              if v == u && Effect(s, op).1.fault.None? then Some(env.now) else LastActive(s, u)
            case Delete(v, _) => if v == u && Effect(s, op).1.fault.None? then None else LastActive(s, u)
            case _ => LastActive(s, u)
  {
    hide System.Create, System.WakeUp, System.Suspend, System.Delete, System.SetModelConfig;
    match op
    case Create(v, env) => CreateKeepsActivity(s, v, env);
    case Wake(v, env) => if v in s.store { WakeUpKeepsActivity(s, v, s.store[v], env); }
    case Suspend(v, env) => SuspendKeepsActivity(s, v, env);
    case Delete(v, env) => DeleteActivity(s, v, env);
    case SetModelConfig(v, cfg, env) => SwitchActivity(s, v, cfg, env);
    case _ =>
  }

  /** Over any run, whatever fails, the stored time is that of the latest activity. */
  lemma {:induction false} StoredActivityIsLatest(site: Site, ops: seq<Op>, u: string)
    ensures LastActive(Run(NewSystem(site), ops), u) == LatestActivity(NewSystem(site), ops, u)
    decreases |ops|
  {
    if ops != [] {
      StoredActivityIsLatest(site, ops[..|ops| - 1], u);
      ActivityStep(Run(NewSystem(site), ops[..|ops| - 1]), ops[|ops| - 1], u);
    }
  }

  lemma StopIgnoresActivity(s: System, u: string, reach: Reach, activity: map<string, ActivityValue>)
    ensures s.(activity := activity).ProviderStop(u, reach) ==
            (s.ProviderStop(u, reach).0.(activity := activity), s.ProviderStop(u, reach).1)
  {
  }

  lemma SuspendIgnoresActivity(s: System, u: string, env: Env, activity: map<string, ActivityValue>)
    ensures s.(activity := activity).Suspend(u, env) ==
            (s.Suspend(u, env).0.(activity := activity), s.Suspend(u, env).1)
    ensures s.Suspend(u, env).0.activity == s.activity
  {
    hide System.ProviderStop;
    StopIgnoresActivity(s, u, env.reach, activity);
    SuspendKeepsActivity(s, u, env);
  }

  /**
   Relays write counts without the manager's lock, so they may do so while a suspend is under way. It
   makes no difference: a suspend neither reads nor writes activity.
   */
  lemma SuspendCommutesWithCounts(s: System, u: string, env: Env, v: string, n: int, now: int)
    ensures var (t, reply) := s.Suspend(u, env);
            s.SetWSConnections(v, n, now).Suspend(u, env) == (t.SetWSConnections(v, n, now), reply)
  {
    hide System.Suspend;
    SuspendIgnoresActivity(s, u, env, s.SetWSConnections(v, n, now).activity);
  }
}
