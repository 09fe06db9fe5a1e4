/**
 Runs from the empty system that meet the failing sides of the lifecycle's equivalences: each is lawful,
 and everything in it works but one call.
 */
module FailingRuns {
  import opened Options
  import opened Lifecycle
  import opened LifecycleStrays
  import opened LifecycleAgreement

  const USER := "u"
  const WORKS := Reach(true, true)

  /** Everything works, at time 0. */
  function Fine(sandboxID: string): Env {
    Env(0, WORKS, Creation(sandboxID, true, true), WORKS, true, true, true,
        Some(ModelConfig("", "", "", [], "")), true, WORKS)
  }

  /** The only user has a sandbox in this phase, and a record of this status. */
  predicate OneUser(s: System, sandboxID: string, status: Status, phase: Phase) {
    && s.store.Keys == {USER} && s.store[USER].status == status && s.cache == map[]
    && s.sbxs == map[USER := sandboxID] && s.cloud.Keys >= {sandboxID} && s.cloud[sandboxID] == Sandbox(USER, phase)
  }

  predicate OneRunning(s: System, sandboxID: string) {
    OneUser(s, sandboxID, Running, Up)
  }

  lemma CreateRuns(s: System, sandboxID: string)
    requires s.store == map[] && s.sbxs == map[] && s.cache == map[]
    ensures var t := Step(s, Op.Create(USER, Fine(sandboxID)));
            && OneRunning(t, sandboxID) && USER in t.routes
            && t.activity == s.activity && t.cloud.Keys == s.cloud.Keys + {sandboxID}
  {
    assert ValidUserID(USER);
  }

  lemma SuspendPauses(s: System, sandboxID: string)
    requires OneRunning(s, sandboxID)
    ensures OneUser(Step(s, Op.Suspend(USER, Fine(""))), sandboxID, Suspended, Paused)
  {
  }

  lemma DeleteWorks(s: System, sandboxID: string)
    requires OneRunning(s, sandboxID)
    ensures Effect(s, Op.Delete(USER, Fine(""))).1.fault.None?
    ensures var t := Step(s, Op.Delete(USER, Fine("")));
            && t.store == map[] && t.sbxs == map[] && t.cache == map[]
            && t.activity == s.activity - {USER} && t.cloud.Keys == s.cloud.Keys
  {
  }

  lemma Created(site: Site) returns (ops: seq<Op>)
    ensures Lawful(NewSystem(site), ops) && OneRunning(Run(NewSystem(site), ops), "a")
    ensures USER in Run(NewSystem(site), ops).routes
  {
    hide System.Create;
    CreateRuns(NewSystem(site), "a");
    ops := [] + [Op.Create(USER, Fine("a"))];
    RunThen(NewSystem(site), [], ops[0]);
  }

  /** The kill fails after `Connect` has resumed the sandbox of a suspended user. */
  lemma FailedKillDisagrees(site: Site) returns (ops: seq<Op>)
    ensures Lawful(NewSystem(site), ops) && !Agrees(Run(NewSystem(site), ops), USER)
  {
    hide System.Create, System.Suspend;
    var created := Created(site);
    var s := Run(NewSystem(site), created);
    var suspend := Op.Suspend(USER, Fine(""));
    SuspendPauses(s, "a");
    RunThen(NewSystem(site), created, suspend);
    var fails := Op.Delete(USER, Fine("").(reach := Reach(true, false)));
    RunThen(NewSystem(site), created + [suspend], fails);
    FailedKillResumes(Step(s, suspend), "a");
    ops := created + [suspend] + [fails];
  }

  lemma FailedKillResumes(s: System, sandboxID: string)
    requires OneUser(s, sandboxID, Suspended, Paused)
    ensures !Agrees(Step(s, Op.Delete(USER, Fine("").(reach := Reach(true, false)))), USER)
  {
  }

  /** The registry does not take the route back. */
  lemma LeftRouteDisagrees(site: Site) returns (ops: seq<Op>)
    ensures Lawful(NewSystem(site), ops) && !Agrees(Run(NewSystem(site), ops), USER)
  {
    hide System.Create;
    var created := Created(site);
    var delete := Op.Delete(USER, Fine("").(unregister := false));
    RunThen(NewSystem(site), created, delete);
    ops := created + [delete];
  }

  /** `Connect` fails on a sandbox that is alive, and `Delete` takes it for gone. */
  lemma FailedConnectLeaks(site: Site) returns (ops: seq<Op>)
    ensures Lawful(NewSystem(site), ops) && !NoStrays(Run(NewSystem(site), ops))
  {
    hide System.Create;
    var created := Created(site);
    var delete := Op.Delete(USER, Fine("").(reach := Reach(false, false)));
    RunThen(NewSystem(site), created, delete);
    ops := created + [delete];
    var t := Run(NewSystem(site), ops);
    assert "a" in Strays(t.cloud, t.sbxs, USER);
  }
}
