/**
 Sandboxes nobody tracks. A stray of a user is a sandbox of his that is not killed and that the
 provider does not track for him: it costs money and no operation will ever reach it again.
 Each operation adds exactly the strays `Leaked` names; with reliable kills there are none.
 */
module LifecycleStrays {
  import opened Lifecycle
  import opened LifecycleSafety

  ghost function Strays(cloud: map<string, Sandbox>, sbxs: map<string, string>, u: string): set<string> {
    set id | id in cloud && cloud[id].owner == u && cloud[id].phase != Killed && !(u in sbxs && sbxs[u] == id)
  }

  function TrackedAlive(s: System, u: string): set<string> {
    if u in s.sbxs && s.Alive(s.sbxs[u]) then {s.sbxs[u]} else {}
  }

  /** Creating over a tracked sandbox that is still alive loses it. */
  function LostByCreation(s: System, u: string, c: Creation): set<string> {
    if c.created then TrackedAlive(s, u) else {}
  }

  /** A `Connect` that fails on a sandbox that is still alive makes `Delete` forget it. */
  function LostByDelete(s: System, u: string, reach: Reach): set<string> {
    if reach.connect then {} else TrackedAlive(s, u)
  }

  lemma CreationStrays(s: System, u: string, c: Creation)
    requires c.sandboxID !in s.cloud && TrackOk(s, u)
    ensures var t := s.ProviderCreate(u, c).0;
            && Strays(t.cloud, t.sbxs, u) == Strays(s.cloud, s.sbxs, u) + LostByCreation(s, u, c)
            && (c.created ==> TrackedAlive(t, u) == {c.sandboxID})
  {
  }

  lemma StartStrays(s: System, u: string, reach: Reach)
    requires TrackOk(s, u)
    ensures var t := s.ProviderStart(u, reach).0; Strays(t.cloud, t.sbxs, u) == Strays(s.cloud, s.sbxs, u)
  {
  }

  lemma StopStrays(s: System, u: string, reach: Reach)
    requires TrackOk(s, u)
    ensures var t := s.ProviderStop(u, reach).0; Strays(t.cloud, t.sbxs, u) == Strays(s.cloud, s.sbxs, u)
  {
  }

  lemma DeleteStrays(s: System, u: string, reach: Reach)
    requires TrackOk(s, u)
    ensures var t := s.ProviderDelete(u, reach).0;
            && Strays(t.cloud, t.sbxs, u) == Strays(s.cloud, s.sbxs, u) + LostByDelete(s, u, reach)
            && TrackedAlive(t, u) == if reach.connect && !reach.next then TrackedAlive(s, u) else {}
  {
  }

  // --- Operations -----------------------------------------------------------------------------

  /** What `Create` leaks once it is making a new sandbox: what was tracked, or the new one. */
  function LeakedByMake(s: System, u: string, env: Env): set<string> {
    var c := env.creation;
    LostByCreation(s, u, c) +
    if c.created && c.ready && (!env.healthy || env.seat.None?) && !env.undo.connect then {c.sandboxID} else {}
  }

  function Leaked(s: System, op: Op): set<string> {
    match op
    case Delete(u, env) => LostByDelete(s, u, env.reach)
    case Create(u, env) =>
      if ValidUserID(u) && u in s.store && s.store[u].status == Failed then
        LostByDelete(s, u, env.cleanup) + LeakedByMake(s.ProviderDelete(u, env.cleanup).0, u, env)
      else if ValidUserID(u) && u !in s.store then LeakedByMake(s, u, env)
      else {}
    case _ => {}
  }

  lemma SettleCloud(s: System, u: string, placed: InstanceValue, env: Env)
    requires u !in s.cache
    ensures var t := s.Settle(u, placed, env).0;
            var d := if !env.healthy || env.seat.None? then s.ProviderDelete(u, env.undo).0 else s;
            t.cloud == d.cloud && t.sbxs == d.sbxs
  {
    if env.healthy {
      var routed := s.RegisterRoute(u, placed.endpoint, env.register);
      assert routed.ResolveConfig(u, env.now, env.seat) == env.seat;
      RouteLeavesCloud(s, u, placed.endpoint, env);
    }
  }

  lemma RouteLeavesCloud(s: System, u: string, endpoint: string, env: Env)
    ensures var routed := s.RegisterRoute(u, endpoint, env.register);
            && routed.cloud == s.cloud && routed.sbxs == s.sbxs
            && routed.ProviderDelete(u, env.undo).0.cloud == s.ProviderDelete(u, env.undo).0.cloud
            && routed.ProviderDelete(u, env.undo).0.sbxs == s.ProviderDelete(u, env.undo).0.sbxs
  {
  }

  lemma RouseCloud(s: System, u: string, placed: InstanceValue, env: Env)
    ensures var t := s.Rouse(u, placed, env).0; t.cloud == s.cloud && t.sbxs == s.sbxs
  {
    if env.healthy {
      RouteLeavesCloud(s, u, placed.endpoint, env);
    }
  }

  lemma MakeStrays(s: System, u: string, env: Env)
    requires env.creation.sandboxID !in s.cloud && TrackOk(s, u) && u !in s.cache
    ensures var t := s.Make(u, env).0;
            Strays(t.cloud, t.sbxs, u) == Strays(s.cloud, s.sbxs, u) + LeakedByMake(s, u, env)
  {
    var (s1, made) := s.ProviderCreate(u, env.creation);
    CreationStrays(s, u, env.creation);
    ProviderCreateIsOwn(s, u, env.creation);
    if made.Ok? {
      SettleCloud(s1, u, Placed(FreshInstance(u, env.now), made.value), env);
      DeleteStrays(s1, u, env.undo);
    }
  }

  lemma WakeUpStrays(s: System, u: string, env: Env)
    requires TrackOk(s, u) && u in s.store
    ensures var t := s.WakeUp(u, s.store[u], env).0;
            Strays(t.cloud, t.sbxs, u) == Strays(s.cloud, s.sbxs, u)
  {
    var (s1, started) := s.ProviderStart(u, env.reach);
    StartStrays(s, u, env.reach);
    if started.Ok? {
      RouseCloud(s1, u, Placed(s.store[u], started.value), env);
    }
  }

  lemma DeleteKeepsBooks(s: System, u: string, reach: Reach)
    requires TrackOk(s, u)
    ensures var t := s.ProviderDelete(u, reach).0;
            t.cloud.Keys == s.cloud.Keys && t.cache == s.cache && TrackOk(t, u)
  {
  }

  lemma CreateStrays(s: System, u: string, env: Env)
    requires TrackOk(s, u) && RecordOk(s, u) && env.creation.sandboxID !in s.cloud
    ensures var t := s.Create(u, env).0;
            Strays(t.cloud, t.sbxs, u) == Strays(s.cloud, s.sbxs, u) + Leaked(s, Op.Create(u, env))
  {
    hide System.Make, System.WakeUp, System.ProviderDelete, Strays, LostByDelete, LeakedByMake;
    if ValidUserID(u) {
      if u !in s.store {
        MakeStrays(s, u, env);
      } else if s.store[u].status == Suspended {
        WakeUpStrays(s, u, env);
      } else if s.store[u].status == Failed {
        var s1 := s.ProviderDelete(u, env.cleanup).0;
        DeleteStrays(s, u, env.cleanup);
        DeleteKeepsBooks(s, u, env.cleanup);
        MakeStrays(s1, u, env);
      }
    }
  }

  /** An operation adds exactly the leaked sandboxes to the strays of its user, whatever fails. */
  lemma {:induction false} OperationLeaksExactly(s: System, op: Op)
    requires Consistent(s) && FreshID(s, op) && !op.Vanish?
    ensures var t := Step(s, op);
            Strays(t.cloud, t.sbxs, op.user) == Strays(s.cloud, s.sbxs, op.user) + Leaked(s, op)
  {
    hide System.Create, System.WakeUp, System.ProviderStop, System.ProviderDelete, LeakedByMake, LostByDelete;
    var u := op.user;
    assert TrackOk(s, u) && RecordOk(s, u);
    match op
    case Create(_, env) => CreateStrays(s, u, env);
    case Suspend(_, env) => StopStrays(s, u, env.reach);
    case Wake(_, env) => if u in s.store { WakeUpStrays(s, u, env); }
    case Delete(_, env) => DeleteStrays(s, u, env.reach);
    case _ =>
  }

  // --- Runs -----------------------------------------------------------------------------------

  /** No sandbox at all is a stray. */
  ghost predicate NoStrays(s: System) {
    forall u {:trigger Strays(s.cloud, s.sbxs, u)} :: Strays(s.cloud, s.sbxs, u) == {}
  }

  /** `Connect` fails only on a sandbox that is gone, and `Kill` works whenever `Connect` does. */
  predicate ReliableKills(op: Op) {
    match op
    case Create(_, env) => env.cleanup == Reach(true, true) && env.undo == Reach(true, true)
    case Delete(_, env) => env.reach == Reach(true, true)
    case _ => true
  }

  lemma StrayIsOwners(s: System, id: string)
    requires NoStrays(s) && s.Alive(id)
    ensures s.cloud[id].owner in s.sbxs && s.sbxs[s.cloud[id].owner] == id
  {
    assert id !in Strays(s.cloud, s.sbxs, s.cloud[id].owner);
  }

  lemma ReliableKillsLeakNothing(s: System, op: Op)
    requires Consistent(s) && FreshID(s, op) && ReliableKills(op)
    ensures Leaked(s, op) == {}
  {
    if op.Create? {
      assert TrackOk(s, op.user) && RecordOk(s, op.user);
      DeleteStrays(s, op.user, op.env.cleanup);
    }
  }

  /** Without outside help the strays of every user but the operation's stay what they are. */
  lemma OthersKeepStrays(s: System, op: Op, v: string)
    requires Consistent(s) && FreshID(s, op) && !op.Vanish? && v != op.user
    ensures var t := Step(s, op); Strays(t.cloud, t.sbxs, v) == Strays(s.cloud, s.sbxs, v)
  {
    OperationsAreIsolated(s, op);
    assert SameFor(s, Step(s, op), v);
  }

  lemma VanishingLeavesNoStray(s: System, id: string, u: string)
    requires Strays(s.cloud, s.sbxs, u) == {}
    ensures var t := Step(s, Vanish(id)); Strays(t.cloud, t.sbxs, u) == {}
  {
    var t := Step(s, Vanish(id));
    assert forall other :: other in Strays(t.cloud, t.sbxs, u) ==> other in Strays(s.cloud, s.sbxs, u);
  }

  /** One step keeps the system free of strays exactly when it leaks nothing. */
  lemma StepKeepsNoStraysIff(s: System, op: Op)
    requires Consistent(s) && FreshID(s, op) && NoStrays(s)
    ensures NoStrays(Step(s, op)) <==> Leaked(s, op) == {}
  {
    hide Strays, Step, LeakedByMake, LostByDelete;
    var t := Step(s, op);
    forall u
      ensures Strays(t.cloud, t.sbxs, u) == if !op.Vanish? && u == op.user then Leaked(s, op) else {}
    {
      assert Strays(s.cloud, s.sbxs, u) == {};
      if op.Vanish? {
        VanishingLeavesNoStray(s, op.sandboxID, u);
      } else if u == op.user {
        OperationLeaksExactly(s, op);
      } else {
        OthersKeepStrays(s, op, u);
      }
    }
    if !op.Vanish? {
      assert Strays(t.cloud, t.sbxs, op.user) == Leaked(s, op);
    }
  }

  lemma {:induction false} RunHasNoStrays(site: Site, ops: seq<Op>)
    requires Lawful(NewSystem(site), ops)
    requires forall k :: 0 <= k < |ops| ==> ReliableKills(ops[k])
    ensures NoStrays(Run(NewSystem(site), ops))
    decreases |ops|
  {
    if ops != [] {
      var k := |ops| - 1;
      var s := Run(NewSystem(site), ops[..k]);
      RunHasNoStrays(site, ops[..k]);
      RunConsistent(site, ops[..k]);
      ReliableKillsLeakNothing(s, ops[k]);
      StepKeepsNoStraysIff(s, ops[k]);
    }
  }

  /** Every live sandbox is the tracked one of a recorded user, and a user has at most one. */
  ghost predicate OneLiveEach(s: System) {
    forall a {:trigger s.Alive(a)} :: s.Alive(a) ==>
                                        var u := s.cloud[a].owner;
                                        && u in s.store && u in s.sbxs && s.sbxs[u] == a
                                        && forall b :: s.Alive(b) && s.cloud[b].owner == u ==> b == a
  }

  /** In every run with reliable kills, whatever else fails and whatever the platform reclaims. */
  lemma {:induction false} AtMostOneLiveSandbox(site: Site, ops: seq<Op>)
    requires Lawful(NewSystem(site), ops)
    requires forall k :: 0 <= k < |ops| ==> ReliableKills(ops[k])
    ensures OneLiveEach(Run(NewSystem(site), ops))
  {
    var s := Run(NewSystem(site), ops);
    RunHasNoStrays(site, ops);
    RunConsistent(site, ops);
    forall a | s.Alive(a)
      ensures var u := s.cloud[a].owner;
              && u in s.store && u in s.sbxs && s.sbxs[u] == a
              && forall b :: s.Alive(b) && s.cloud[b].owner == u ==> b == a
    {
      StrayIsOwners(s, a);
      assert RecordOk(s, s.cloud[a].owner);
      forall b | s.Alive(b) && s.cloud[b].owner == s.cloud[a].owner
        ensures b == a
      {
        StrayIsOwners(s, b);
      }
    }
  }
}
