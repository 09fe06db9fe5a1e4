/**
 The idle reaper. A scan lists the instances, reads each running user's activity, and suspends those
 without connections that have been idle long enough. It holds no lock from one of these steps to the
 next, so other requests run in between, and `Suspend` may wait for the manager's lock long after the
 activity was read.

 A step here is one access to shared state: a listing, a read, a suspend, or an operation of somebody
 else. An operation is one step because each writes instances and activity at one point only.
 */
module Reaper {
  import opened Options
  import opened Lifecycle
  import opened LifecycleActivity
  import opened Store
  import opened Manager

  datatype Listed = Listed(user: string, status: Status)

  /** A user whose activity was read and found due, and who is not suspended yet. */
  datatype Due = Due(user: string, readAt: nat)

  /** What a scan did with a user: when it read his activity and when it suspended him, if it did. */
  datatype Visit = Visit(user: string, readAt: Option<nat>, suspendedAt: Option<nat>)

  datatype Scan = Scan(listedAt: Option<nat>, todo: seq<Listed>, due: Option<Due>, visits: seq<Visit>)
  {
    predicate Finished() {
      todo == [] && due.None?
    }
  }

  const NO_SCAN := Scan(None, [], None, [])

  datatype Act =
    | Operated(op: Op)              // somebody else's
    | Lists(order: seq<string>)
    | Skips                         // a user listed as not running
    | Reads(read: int, since: int)  // the clock at the read and at the comparison
    | Suspends(env: Env)

  datatype World = World(system: System, scan: Scan)

  function Statuses(s: System, order: seq<string>): (listed: seq<Listed>)
    requires forall k :: 0 <= k < |order| ==> order[k] in s.store
    ensures |listed| == |order|
    ensures forall k :: 0 <= k < |order| ==> listed[k] == Listed(order[k], s.store[order[k]].status)
  {
    seq(|order|, k requires 0 <= k < |order| => Listed(order[k], s.store[order[k]].status))
  }

  /** Every user with a record, in the order of their ids and so each once. */
  ghost predicate Enumerates(order: seq<string>, s: System) {
    && (forall k :: 0 <= k < |order| ==> order[k] in s.store)
    && (forall u :: u in s.store ==> u in order)
    && InOrder(order)
  }

  /** What a read must find before its user is suspended. */
  predicate IsDue(s: System, u: string, idle: int, read: int, since: int) {
    var act := s.ActivityOf(u, read);
    act.wsConnections <= 0 && since - act.lastActiveAt >= idle
  }

  ghost predicate Enabled(w: World, act: Act) {
    match act
    case Operated(_) => true
    case Lists(order) => w.scan.Finished() && Enumerates(order, w.system)
    case Skips => w.scan.due.None? && w.scan.todo != [] && w.scan.todo[0].status != Running
    case Reads(_, _) => w.scan.due.None? && w.scan.todo != [] && w.scan.todo[0].status == Running
    case Suspends(_) => w.scan.due.Some?
  }

  /** What the act at position `at` of a run does; one that is not enabled does nothing. */
  ghost function Do(w: World, act: Act, at: nat, idle: int): World {
    if !Enabled(w, act) then w
    else match act
      case Operated(op) => w.(system := Step(w.system, op))
      case Lists(order) => w.(scan := Scan(Some(at), Statuses(w.system, order), None, []))
      case Skips => w.(scan := Visited(w.scan, w.scan.todo[1..], Visit(w.scan.todo[0].user, None, None)))
      case Reads(read, since) => w.(scan := AfterRead(w, at, idle, read, since))
      case Suspends(env) =>
        var Due(u, readAt) := w.scan.due.value;
        World(w.system.Suspend(u, env).0, Visited(w.scan, w.scan.todo, Visit(u, Some(readAt), Some(at))))
  }

  function AfterRead(w: World, at: nat, idle: int, read: int, since: int): Scan
    requires w.scan.todo != []
  {
    var u, rest := w.scan.todo[0].user, w.scan.todo[1..];
    if IsDue(w.system, u, idle, read, since) then w.scan.(todo := rest, due := Some(Due(u, at)))
    else Visited(w.scan, rest, Visit(u, Some(at), None))
  }

  function Visited(scan: Scan, todo: seq<Listed>, visit: Visit): Scan {
    Scan(scan.listedAt, todo, None, scan.visits + [visit])
  }

  ghost function After(s: System, idle: int, acts: seq<Act>): World {
    if acts == [] then World(s, NO_SCAN)
    else
      var k := |acts| - 1;
      Do(After(s, idle, acts[..k]), acts[k], k, idle)
  }

  /** The world before the act at position k. */
  ghost function At(s: System, idle: int, acts: seq<Act>, k: nat): World
    requires k <= |acts|
  {
    After(s, idle, acts[..k])
  }

  ghost predicate Possible(s: System, idle: int, acts: seq<Act>) {
    forall k :: 0 <= k < |acts| ==> Enabled(At(s, idle, acts, k), acts[k])
  }

  lemma Then(s: System, idle: int, acts: seq<Act>, act: Act)
    ensures After(s, idle, acts + [act]) == Do(After(s, idle, acts), act, |acts|, idle)
    ensures forall k :: 0 <= k <= |acts| ==> At(s, idle, acts + [act], k) == At(s, idle, acts, k)
    ensures Possible(s, idle, acts + [act]) <==> Possible(s, idle, acts) && Enabled(After(s, idle, acts), act)
  {
    var more := acts + [act];
    assert more[..|acts|] == acts;
    assert acts[..|acts|] == acts;
    assert forall k :: 0 <= k <= |acts| ==> more[..k] == acts[..k];
    assert At(s, idle, more, |acts|) == After(s, idle, acts);
    assert more[|acts|] == act;
    assert forall k :: 0 <= k < |acts| ==> more[k] == acts[k];
  }

  /** The platform gives out no sandbox id twice. */
  ghost predicate FreshIDs(s: System, idle: int, acts: seq<Act>) {
    forall k :: 0 <= k < |acts| && acts[k].Operated? ==> FreshID(At(s, idle, acts, k).system, acts[k].op)
  }

  lemma FreshThen(s: System, idle: int, acts: seq<Act>, act: Act)
    requires FreshIDs(s, idle, acts) && (act.Operated? ==> FreshID(After(s, idle, acts).system, act.op))
    ensures FreshIDs(s, idle, acts + [act])
  {
    Then(s, idle, acts, act);
    assert acts[..|acts|] == acts;
  }

  // --- What a scan does, whatever happens meanwhile --------------------------------------------------

  ghost predicate ListedAs(s: System, idle: int, acts: seq<Act>, listedAt: nat, u: string, running: bool)
    requires listedAt < |acts|
  {
    var store := At(s, idle, acts, listedAt).system.store;
    u in store && (store[u].status == Running) == running
  }

  /** u was listed as running and read later. */
  ghost predicate ReadOk(s: System, idle: int, acts: seq<Act>, listedAt: nat, u: string, readAt: nat) {
    listedAt < readAt < |acts| && acts[readAt].Reads? && ListedAs(s, idle, acts, listedAt, u, true)
  }

  /** The read at this position found u without connections and idle long enough. */
  ghost predicate FoundDue(s: System, idle: int, acts: seq<Act>, u: string, readAt: nat)
    requires readAt < |acts| && acts[readAt].Reads?
  {
    IsDue(At(s, idle, acts, readAt).system, u, idle, acts[readAt].read, acts[readAt].since)
  }

  /** The suspend at this position was u's. */
  ghost predicate SuspendOk(s: System, idle: int, acts: seq<Act>, u: string, readAt: nat, suspendedAt: nat) {
    && readAt < suspendedAt < |acts| && acts[suspendedAt].Suspends?
    && At(s, idle, acts, suspendedAt).scan.due == Some(Due(u, readAt))
  }

  /**
   One visit: without a read exactly if the user was listed as not running, and with a suspend exactly
   if the read found him due.
   */
  ghost predicate VisitOk(s: System, idle: int, acts: seq<Act>, listedAt: nat, v: Visit)
    requires listedAt < |acts|
  {
    if v.readAt.None? then ListedAs(s, idle, acts, listedAt, v.user, false) && v.suspendedAt.None?
    else
      && ReadOk(s, idle, acts, listedAt, v.user, v.readAt.value)
      && (v.suspendedAt.Some? <==> FoundDue(s, idle, acts, v.user, v.readAt.value))
      && (v.suspendedAt.Some? ==> SuspendOk(s, idle, acts, v.user, v.readAt.value, v.suspendedAt.value))
  }

  ghost predicate TodoOk(s: System, idle: int, acts: seq<Act>, listedAt: nat, l: Listed)
    requires listedAt < |acts|
  {
    ListedAs(s, idle, acts, listedAt, l.user, l.status == Running)
  }

  ghost predicate DueOk(s: System, idle: int, acts: seq<Act>, listedAt: nat, d: Due) {
    ReadOk(s, idle, acts, listedAt, d.user, d.readAt) && FoundDue(s, idle, acts, d.user, d.readAt)
  }

  function Users(scan: Scan): seq<string> {
    seq(|scan.visits|, k requires 0 <= k < |scan.visits| => scan.visits[k].user)
    + (if scan.due.Some? then [scan.due.value.user] else [])
    + seq(|scan.todo|, k requires 0 <= k < |scan.todo| => scan.todo[k].user)
  }

  /** Each listed user is in one place of the scan: visited, found due, or still to be visited. */
  ghost predicate ScanOk(s: System, idle: int, acts: seq<Act>, scan: Scan) {
    if scan.listedAt.None? then scan == NO_SCAN
    else
      var l := scan.listedAt.value;
      && l < |acts| && acts[l].Lists? && Users(scan) == acts[l].order
      && (forall k :: 0 <= k < |scan.todo| ==> TodoOk(s, idle, acts, l, scan.todo[k]))
      && (forall k :: 0 <= k < |scan.visits| ==> VisitOk(s, idle, acts, l, scan.visits[k]))
      && (scan.due.Some? ==> DueOk(s, idle, acts, l, scan.due.value))
  }

  /** What was so after some acts is so after one more. */
  lemma EarlierStays(s: System, idle: int, acts: seq<Act>, act: Act, scan: Scan)
    requires ScanOk(s, idle, acts, scan)
    ensures ScanOk(s, idle, acts + [act], scan)
  {
    if scan.listedAt.Some? {
      var more, l := acts + [act], scan.listedAt.value;
      Then(s, idle, acts, act);
      forall k | 0 <= k < |scan.todo|
        ensures TodoOk(s, idle, more, l, scan.todo[k])
      {
        assert TodoOk(s, idle, acts, l, scan.todo[k]);
      }
      forall k | 0 <= k < |scan.visits|
        ensures VisitOk(s, idle, more, l, scan.visits[k])
      {
        assert VisitOk(s, idle, acts, l, scan.visits[k]);
      }
    }
  }

  lemma ListsKeeps(s: System, idle: int, acts: seq<Act>, order: seq<string>)
    requires Enabled(After(s, idle, acts), Lists(order))
    ensures ScanOk(s, idle, acts + [Lists(order)], Do(After(s, idle, acts), Lists(order), |acts|, idle).scan)
  {
    var w, act := After(s, idle, acts), Lists(order);
    var scan := Do(w, act, |acts|, idle).scan;
    Then(s, idle, acts, act);
    assert acts[..|acts|] == acts;
    forall k | 0 <= k < |scan.todo|
      ensures TodoOk(s, idle, acts + [act], |acts|, scan.todo[k])
    {
      assert scan.todo[k] == Listed(order[k], w.system.store[order[k]].status);
    }
    assert Users(scan) == order;
  }

  /** One more user has been visited. */
  lemma VisitedKeeps(s: System, idle: int, acts: seq<Act>, scan: Scan, todo: seq<Listed>, visit: Visit)
    requires ScanOk(s, idle, acts, scan) && scan.listedAt.Some?
    requires VisitOk(s, idle, acts, scan.listedAt.value, visit)
    requires || (scan.due.None? && scan.todo != [] && todo == scan.todo[1..] && visit.user == scan.todo[0].user)
             || (scan.due.Some? && todo == scan.todo && visit.user == scan.due.value.user)
    ensures ScanOk(s, idle, acts, Visited(scan, todo, visit))
  {
    var l, now := scan.listedAt.value, Visited(scan, todo, visit);
    forall k | 0 <= k < |now.todo|
      ensures TodoOk(s, idle, acts, l, now.todo[k])
    {
      var j := if scan.due.None? then k + 1 else k;
      assert now.todo[k] == scan.todo[j] && TodoOk(s, idle, acts, l, scan.todo[j]);
    }
    forall k | 0 <= k < |now.visits|
      ensures VisitOk(s, idle, acts, l, now.visits[k])
    {
      assert k < |scan.visits| ==> VisitOk(s, idle, acts, l, scan.visits[k]);
    }
    assert Users(now) == Users(scan);
  }

  /** The head of the list has been read and found due. */
  lemma DueKeeps(s: System, idle: int, acts: seq<Act>, scan: Scan, due: Due)
    requires ScanOk(s, idle, acts, scan) && scan.listedAt.Some? && scan.due.None? && scan.todo != []
    requires due.user == scan.todo[0].user && DueOk(s, idle, acts, scan.listedAt.value, due)
    ensures ScanOk(s, idle, acts, scan.(todo := scan.todo[1..], due := Some(due)))
  {
    var l, now := scan.listedAt.value, scan.(todo := scan.todo[1..], due := Some(due));
    forall k | 0 <= k < |now.todo|
      ensures TodoOk(s, idle, acts, l, now.todo[k])
    {
      assert TodoOk(s, idle, acts, l, scan.todo[k + 1]);
    }
    assert Users(now) == Users(scan);
  }

  lemma StepKeepsScan(s: System, idle: int, acts: seq<Act>, act: Act)
    requires ScanOk(s, idle, acts, After(s, idle, acts).scan) && Enabled(After(s, idle, acts), act)
    ensures ScanOk(s, idle, acts + [act], Do(After(s, idle, acts), act, |acts|, idle).scan)
  {
    var w, more := After(s, idle, acts), acts + [act];
    Then(s, idle, acts, act);
    assert acts[..|acts|] == acts;
    assert more[|acts|] == act;
    EarlierStays(s, idle, acts, act, w.scan);
    match act
    case Operated(_) =>
    case Lists(order) => ListsKeeps(s, idle, acts, order);
    case Skips =>
      assert TodoOk(s, idle, more, w.scan.listedAt.value, w.scan.todo[0]);
      VisitedKeeps(s, idle, more, w.scan, w.scan.todo[1..], Visit(w.scan.todo[0].user, None, None));
    case Reads(read, since) =>
      var u := w.scan.todo[0].user;
      assert TodoOk(s, idle, more, w.scan.listedAt.value, w.scan.todo[0]);
      if IsDue(w.system, u, idle, read, since) {
        DueKeeps(s, idle, more, w.scan, Due(u, |acts|));
      } else {
        VisitedKeeps(s, idle, more, w.scan, w.scan.todo[1..], Visit(u, Some(|acts|), None));
      }
    case Suspends(_) =>
      var d := w.scan.due.value;
      VisitedKeeps(s, idle, more, w.scan, w.scan.todo, Visit(d.user, Some(d.readAt), Some(|acts|)));
  }

  lemma {:induction false} ScanKeeps(s: System, idle: int, acts: seq<Act>)
    requires Possible(s, idle, acts)
    ensures ScanOk(s, idle, acts, After(s, idle, acts).scan)
    decreases |acts|
  {
    if acts != [] {
      var k := |acts| - 1;
      assert acts == acts[..k] + [acts[k]];
      Then(s, idle, acts[..k], acts[k]);
      ScanKeeps(s, idle, acts[..k]);
      StepKeepsScan(s, idle, acts[..k], acts[k]);
    }
  }

  /**
   Whatever runs between its steps, a finished scan has visited every user who had a record when it
   listed them, once and in order. It suspended exactly those it had listed as running and then read
   as unconnected and idle long enough.
   */
  lemma {:induction false} ScanSuspendsExactlyTheDue(s: System, idle: int, acts: seq<Act>)
    requires Possible(s, idle, acts)
    requires After(s, idle, acts).scan.Finished() && After(s, idle, acts).scan.listedAt.Some?
    ensures var scan := After(s, idle, acts).scan;
            var l := scan.listedAt.value;
            && l < |acts| && acts[l].Lists?
            && Enumerates(acts[l].order, At(s, idle, acts, l).system)
            && |scan.visits| == |acts[l].order|
            && forall k :: 0 <= k < |scan.visits| ==>
                             scan.visits[k].user == acts[l].order[k] && VisitOk(s, idle, acts, l, scan.visits[k])
  {
    ScanKeeps(s, idle, acts);
    var scan := After(s, idle, acts).scan;
    var l := scan.listedAt.value;
    assert Enabled(At(s, idle, acts, l), acts[l]);
    assert forall k :: 0 <= k < |scan.visits| ==> Users(scan)[k] == scan.visits[k].user;
  }

  /** A suspend of the reaper comes only after its user was listed as running and read as due. */
  lemma {:induction false} SuspendsOnlyTheDue(s: System, idle: int, acts: seq<Act>, k: nat)
    requires Possible(s, idle, acts) && k < |acts| && acts[k].Suspends?
    ensures var scan := At(s, idle, acts, k).scan;
            && scan.due.Some? && scan.listedAt.Some?
            && DueOk(s, idle, acts[..k], scan.listedAt.value, scan.due.value)
            && After(s, idle, acts[..k + 1]).system
               == At(s, idle, acts, k).system.Suspend(scan.due.value.user, acts[k].env).0
  {
    var before := acts[..k];
    assert Enabled(At(s, idle, acts, k), acts[k]);
    forall j | 0 <= j < k
      ensures Enabled(At(s, idle, before, j), before[j])
    {
      assert before[..j] == acts[..j];
      assert Enabled(At(s, idle, acts, j), acts[j]);
    }
    ScanKeeps(s, idle, before);
    assert acts[..k + 1] == before + [acts[k]];
    Then(s, idle, before, acts[k]);
  }

  /** By the activity table, u has no connections and has been idle for the timeout. */
  predicate Idle(activity: map<string, ActivityValue>, u: string, idle: int, read: int, since: int) {
    if u in activity then activity[u].wsConnections <= 0 && since - activity[u].lastActiveAt >= idle
    else since - read >= idle
  }

  /** A visit suspended its user exactly if he had been listed as running and was idle when he was read. */
  ghost predicate SuspendedIffIdle(s: System, idle: int, acts: seq<Act>, listedAt: nat, v: Visit)
    requires listedAt < |acts|
  {
    v.suspendedAt.Some? <==>
    && ListedAs(s, idle, acts, listedAt, v.user, true)
    && v.readAt.Some? && v.readAt.value < |acts| && acts[v.readAt.value].Reads?
    && var r := v.readAt.value;
    Idle(At(s, idle, acts, r).system.activity, v.user, idle, acts[r].read, acts[r].since)
  }

  lemma {:induction false} VisitsSuspendTheIdle(s: System, idle: int, acts: seq<Act>)
    requires Possible(s, idle, acts)
    ensures var scan := After(s, idle, acts).scan;
            scan.listedAt.Some? ==>
              && scan.listedAt.value < |acts|
              && forall k :: 0 <= k < |scan.visits| ==>
                               SuspendedIffIdle(s, idle, acts, scan.listedAt.value, scan.visits[k])
  {
    ScanKeeps(s, idle, acts);
    var scan := After(s, idle, acts).scan;
    if scan.listedAt.Some? {
      forall k | 0 <= k < |scan.visits|
        ensures SuspendedIffIdle(s, idle, acts, scan.listedAt.value, scan.visits[k])
      {
        assert VisitOk(s, idle, acts, scan.listedAt.value, scan.visits[k]);
      }
    }
  }

  // --- Who is suspended, from the history alone --------------------------------------------------------

  /** The operations of some acts: everybody else's, and the reaper's suspends. */
  ghost function OpsOf(s: System, idle: int, acts: seq<Act>): (ops: seq<Op>) {
    if acts == [] then []
    else
      var before, act := acts[..|acts| - 1], acts[|acts| - 1];
      var scan := After(s, idle, before).scan;
      OpsOf(s, idle, before) +
      match act
      case Operated(op) => [op]
      case Suspends(env) => if scan.due.Some? then [Op.Suspend(scan.due.value.user, env)] else []
      case _ => []
  }

  /** The reaper does nothing to the system but suspend. */
  lemma {:induction false} SystemIsRunOfOps(s: System, idle: int, acts: seq<Act>)
    ensures After(s, idle, acts).system == Run(s, OpsOf(s, idle, acts))
    decreases |acts|
  {
    if acts != [] {
      var before, act := acts[..|acts| - 1], acts[|acts| - 1];
      SystemIsRunOfOps(s, idle, before);
      var ops, w := OpsOf(s, idle, before), After(s, idle, before);
      assert ops + [] == ops;
      if act.Operated? {
        RunThen(s, ops, act.op);
      } else if act.Suspends? && w.scan.due.Some? {
        RunThen(s, ops, Op.Suspend(w.scan.due.value.user, act.env));
      }
    }
  }

  /**
   When the reaper suspends a user, his activity had been read after he was listed as running. By the
   history up to that read, he had no connections, and his latest activity was at least the idle timeout
   before the clock it was compared with; or he had none, and the clock itself moved that far.
   */
  lemma {:induction false} SuspendsOnlyTheIdle(site: Site, idle: int, acts: seq<Act>, k: nat)
    requires Possible(NewSystem(site), idle, acts) && k < |acts| && acts[k].Suspends?
    ensures var s := NewSystem(site);
            var due := At(s, idle, acts, k).scan.due;
            && due.Some? && due.value.readAt < k && acts[due.value.readAt].Reads?
            && var u, r := due.value.user, due.value.readAt;
            var ops := OpsOf(s, idle, acts[..r]);
            && LatestCount(s, ops, u) <= 0
            && match LatestActivity(s, ops, u)
               case Some(time) => acts[r].since - time >= idle
               case None => acts[r].since - acts[r].read >= idle
  {
    var s := NewSystem(site);
    SuspendsOnlyTheDue(s, idle, acts, k);
    var Due(u, r) := At(s, idle, acts, k).scan.due.value;
    assert acts[..k][..r] == acts[..r];
    ReadFinds(site, idle, acts, r, u);
  }

  /** What a read finds is a matter of history, whichever way it decides. */
  lemma {:induction false} ReadFinds(site: Site, idle: int, acts: seq<Act>, r: nat, u: string)
    requires r < |acts| && acts[r].Reads?
    ensures var s := NewSystem(site);
            var ops := OpsOf(s, idle, acts[..r]);
            FoundDue(s, idle, acts, u, r) <==>
            && LatestCount(s, ops, u) <= 0
            && match LatestActivity(s, ops, u)
               case Some(time) => acts[r].since - time >= idle
               case None => acts[r].since - acts[r].read >= idle
  {
    var s := NewSystem(site);
    var ops := OpsOf(s, idle, acts[..r]);
    SystemIsRunOfOps(s, idle, acts[..r]);
    StoredCountIsLatest(site, ops, u);
    StoredActivityIsLatest(site, ops, u);
  }

  /**
   A finished scan, by the history alone: it suspended a listed user exactly if he was listed as running,
   and unconnected and idle long enough when it read his activity.
   */
  lemma {:induction false} ScanSuspendsExactlyTheIdle(site: Site, idle: int, acts: seq<Act>, v: Visit)
    requires Possible(NewSystem(site), idle, acts)
    requires var scan := After(NewSystem(site), idle, acts).scan; scan.Finished() && v in scan.visits
    ensures v.readAt.Some? ==> v.readAt.value < |acts| && acts[v.readAt.value].Reads?
    ensures v.suspendedAt.Some? <==>
            && v.readAt.Some?
            && var s, r := NewSystem(site), v.readAt.value;
            var ops := OpsOf(s, idle, acts[..r]);
            && LatestCount(s, ops, v.user) <= 0
            && match LatestActivity(s, ops, v.user)
               case Some(time) => acts[r].since - time >= idle
               case None => acts[r].since - acts[r].read >= idle
  {
    var scan := After(NewSystem(site), idle, acts).scan;
    ScanKeeps(NewSystem(site), idle, acts);
    var k :| 0 <= k < |scan.visits| && scan.visits[k] == v;
    assert VisitOk(NewSystem(site), idle, acts, scan.listedAt.value, scan.visits[k]);
    if v.readAt.Some? {
      ReadFinds(site, idle, acts, v.readAt.value, v.user);
    }
  }

  /** A user without an activity record is found due only if the clock moves by the whole idle timeout. */
  lemma NoRecordNoReaping(s: System, u: string, idle: int, read: int, since: int)
    requires u !in s.activity
    ensures IsDue(s, u, idle, read, since) <==> since - read >= idle
  {
  }

  lemma Listing(s: System, idle: int, order: seq<string>)
    requires Enumerates(order, s)
    ensures Possible(s, idle, [Lists(order)])
    ensures After(s, idle, [Lists(order)]) == World(s, Scan(Some(0), Statuses(s, order), None, []))
  {
    hide Enumerates;
    Then(s, idle, [], Lists(order));
    assert [] + [Lists(order)] == [Lists(order)];
  }

  // --- The scan on the heap ----------------------------------------------------------------------------

  /** What happens around one step of a scan: requests served before it, the clocks, and the backend. */
  datatype Moment = Moment(ops: seq<Op>, read: int, since: int, env: Env)

  class Reaper {
    const manager: Manager
    const idleTimeout: int

    constructor (manager: Manager, idleTimeout: int)
      ensures this.manager == manager && this.idleTimeout == idleTimeout
    {
      this.manager := manager;
      this.idleTimeout := idleTimeout;
    }

    /** The acts led from the system `s` to the manager's state and this scan. */
    ghost predicate Led(s: System, acts: seq<Act>, scan: Scan)
      requires manager.Valid()
      reads manager, manager.store, manager.store.Repr, manager.cache, manager.backend, manager.backend.platform,
            manager.gateway, manager.gateway.registry
    {
      Possible(s, idleTimeout, acts) && After(s, idleTimeout, acts) == World(manager.View(), scan)
    }

    /** Other requests are served. */
    method Meanwhile(ops: seq<Op>, ghost s: System, ghost before: seq<Act>, ghost scan: Scan)
      returns (ghost acts: seq<Act>)
      requires manager.Valid() && Led(s, before, scan)
      modifies manager.store, manager.store.Repr, manager.cache, manager.backend, manager.backend.platform,
               manager.gateway, manager.gateway.registry
      ensures manager.Valid() && fresh(manager.store.Repr - old(manager.store.Repr))
      ensures Led(s, acts, scan)
    {
      hide Manager.View, Manager.Valid;
      acts := before;
      for i := 0 to |ops|
        invariant manager.Valid() && fresh(manager.store.Repr - old(manager.store.Repr))
        invariant Led(s, acts, scan)
      {
        manager.Perform(ops[i]);
        Then(s, idleTimeout, acts, Operated(ops[i]));
        acts := acts + [Operated(ops[i])];
      }
    }

    /** The copies `List` returns, as the user and status the scan reads from each. */
    method ListStatuses() returns (listed: seq<Listed>, ghost order: seq<string>)
      requires manager.Valid()
      ensures Enumerates(order, manager.View()) && listed == Statuses(manager.View(), order)
    {
      hide Manager.View, Manager.Valid;
      var instances := manager.List();
      listed, order := [], [];
      for i := 0 to |instances|
        invariant |listed| == |order| == i
        invariant forall k :: 0 <= k < i ==> order[k] == instances[k].userID
        invariant forall k :: 0 <= k < i ==> listed[k] == Listed(instances[k].userID, instances[k].status)
      {
        listed := listed + [Listed(instances[i].userID, instances[i].status)];
        order := order + [instances[i].userID];
      }
      forall u | u in manager.View().store
        ensures u in order
      {
        var k :| 0 <= k < |instances| && instances[k].userID == u;
        assert order[k] == u;
      }
    }

    /** The listing that begins a scan. */
    method Begin() returns (listed: seq<Listed>, ghost acts: seq<Act>, ghost scan: Scan)
      requires manager.Valid()
      ensures Led(manager.View(), acts, scan)
      ensures scan.todo == listed && scan.due.None? && scan.listedAt.Some?
    {
      hide Manager.View, Manager.Valid, Possible, After, Enumerates;
      ghost var order;
      listed, order := ListStatuses();
      Listing(manager.View(), idleTimeout, order);
      acts := [Lists(order)];
      scan := Scan(Some(0), listed, None, []);
    }

    /** Reads the activity of the next user and decides. */
    method Look(user: string, moment: Moment, ghost s: System, ghost before: seq<Act>, ghost scan: Scan)
      returns (due: bool, ghost acts: seq<Act>, ghost seen: Scan)
      requires manager.Valid() && Led(s, before, scan)
      requires scan.due.None? && scan.todo != [] && scan.todo[0] == Listed(user, Running)
      ensures Led(s, acts, seen) && seen.todo == scan.todo[1..] && seen.listedAt == scan.listedAt
      ensures due == seen.due.Some? && (due ==> seen.due.value.user == user)
    {
      hide Manager.View, Manager.Valid, Possible, After;
      var act := manager.GetActivity(user, moment.read);
      Then(s, idleTimeout, before, Reads(moment.read, moment.since));
      acts := before + [Reads(moment.read, moment.since)];
      seen := AfterRead(World(manager.View(), scan), |before|, idleTimeout, moment.read, moment.since);
      due := act.wsConnections <= 0 && moment.since - act.lastActiveAt >= idleTimeout;
    }

    /** Suspends the user who was found due. */
    method SuspendDue(user: string, env: Env, ghost s: System, ghost before: seq<Act>, ghost scan: Scan)
      returns (ghost acts: seq<Act>, ghost visited: Scan)
      requires manager.Valid() && Led(s, before, scan)
      requires scan.due.Some? && scan.due.value.user == user
      modifies manager.store, manager.cache, manager.backend, manager.backend.platform
      ensures manager.Valid() && fresh(manager.store.Repr - old(manager.store.Repr))
      ensures Led(s, acts, visited) && visited.due.None?
      ensures visited.todo == scan.todo && visited.listedAt == scan.listedAt
    {
      hide Manager.View, Manager.Valid, System.Suspend;
      var inst, fault := manager.Suspend(user, env);
      Then(s, idleTimeout, before, Suspends(env));
      acts := before + [Suspends(env)];
      visited := Visited(scan, scan.todo, Visit(user, Some(scan.due.value.readAt), Some(|before|)));
    }

    /** A user who was listed as not running is passed over. */
    ghost method Skip(user: string, s: System, before: seq<Act>, scan: Scan) returns (acts: seq<Act>, visited: Scan)
      requires manager.Valid() && Led(s, before, scan)
      requires scan.due.None? && scan.todo != [] && scan.todo[0].user == user && scan.todo[0].status != Running
      ensures Led(s, acts, visited) && visited.due.None?
      ensures visited.todo == scan.todo[1..] && visited.listedAt == scan.listedAt
    {
      hide Manager.View, Manager.Valid;
      Then(s, idleTimeout, before, Skips);
      acts := before + [Skips];
      visited := Visited(scan, scan.todo[1..], Visit(user, None, None));
    }

    /** One round of the inner loop. Requests are served before the read, and again before the suspend. */
    method VisitUser(l: Listed, first: Moment, second: Moment,
                     ghost s: System, ghost before: seq<Act>, ghost scan: Scan)
      returns (ghost acts: seq<Act>, ghost visited: Scan)
      requires manager.Valid() && Led(s, before, scan)
      requires scan.due.None? && scan.todo != [] && scan.todo[0] == l
      modifies manager.store, manager.store.Repr, manager.cache, manager.backend, manager.backend.platform,
               manager.gateway, manager.gateway.registry
      ensures manager.Valid() && fresh(manager.store.Repr - old(manager.store.Repr))
      ensures Led(s, acts, visited) && visited.due.None?
      ensures visited.todo == scan.todo[1..] && visited.listedAt == scan.listedAt
    {
      hide Led, Manager.View, Manager.Valid;
      acts := Meanwhile(first.ops, s, before, scan);
      if l.status != Running {
        acts, visited := Skip(l.user, s, acts, scan);
        return;
      }
      var due: bool;
      due, acts, visited := Look(l.user, first, s, acts, scan);
      if !due {
        return;
      }
      acts := Meanwhile(second.ops, s, acts, visited);
      acts, visited := SuspendDue(l.user, second.env, s, acts, visited);
    }

    lemma LedFinishes(s: System, acts: seq<Act>, scan: Scan)
      requires manager.Valid() && Led(s, acts, scan) && scan.Finished() && scan.listedAt.Some?
      ensures var l := scan.listedAt.value;
              && l < |acts| && acts[l].Lists? && |scan.visits| == |acts[l].order|
              && Enumerates(acts[l].order, At(s, idleTimeout, acts, l).system)
              && forall k :: 0 <= k < |scan.visits| ==>
                               && scan.visits[k].user == acts[l].order[k]
                               && SuspendedIffIdle(s, idleTimeout, acts, l, scan.visits[k])
    {
      hide Possible, After, At, Enumerates, SuspendedIffIdle, VisitOk;
      ScanSuspendsExactlyTheDue(s, idleTimeout, acts);
      VisitsSuspendTheIdle(s, idleTimeout, acts);
    }

    /** The body of the ticker loop, with requests served between any two of its steps. */
    method RunScan(moments: nat -> Moment) returns (ghost acts: seq<Act>, ghost scan: Scan)
      requires manager.Valid()
      modifies manager.store, manager.store.Repr, manager.cache, manager.backend, manager.backend.platform,
               manager.gateway, manager.gateway.registry
      ensures manager.Valid() && fresh(manager.store.Repr - old(manager.store.Repr))
      ensures Led(old(manager.View()), acts, scan) && scan.Finished() && scan.listedAt.Some?
      ensures var l := scan.listedAt.value;
              && l < |acts| && acts[l].Lists? && |scan.visits| == |acts[l].order|
              && Enumerates(acts[l].order, At(old(manager.View()), idleTimeout, acts, l).system)
              && forall k :: 0 <= k < |scan.visits| ==>
                               && scan.visits[k].user == acts[l].order[k]
                               && SuspendedIffIdle(old(manager.View()), idleTimeout, acts, l, scan.visits[k])
    {
      hide Led, Manager.View, Manager.Valid, Enumerates, SuspendedIffIdle;
      ghost var s := manager.View();
      var listed: seq<Listed>;
      listed, acts, scan := Begin();
      for i := 0 to |listed|
        invariant manager.Valid() && fresh(manager.store.Repr - old(manager.store.Repr))
        invariant Led(s, acts, scan) && scan.due.None? && scan.todo == listed[i..] && scan.listedAt.Some?
      {
        acts, scan := VisitUser(listed[i], moments(2 * i), moments(2 * i + 1), s, acts, scan);
      }
      LedFinishes(s, acts, scan);
    }
  }
}
