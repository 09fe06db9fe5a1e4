/**
 Relays, the reaper and all other operations together, interleaved at every access to shared state.

 The reaper suspends a user with an open relay exactly in two cases: his instance was deleted, and his
 stored count with it, after his latest relay event and before the reaper read his activity; or the
 relay opened after that read, while the reaper was waiting to suspend him.
 */
module RelayReaping {
  import opened Options
  import opened Lifecycle
  import opened LifecycleActivity
  import opened FailingRuns
  import opened Relay
  import opened Reaper

  /** A relay opens or closes, and writes the count; or somebody else acts. */
  datatype Happening = Relayed(event: Event, now: int) | Acted(act: Act)

  function Events(hs: seq<Happening>): seq<Event> {
    if hs == [] then []
    else
      var before, h := hs[..|hs| - 1], hs[|hs| - 1];
      if h.Relayed? then Events(before) + [h.event] else Events(before)
  }

  /** What the last of the happenings does to the system: `addWS` writes the count it has just adjusted. */
  function ActOf(before: seq<Happening>, h: Happening): Act {
    match h
    case Acted(act) => act
    case Relayed(e, now) =>
      Operated(Op.SetWSConnections(e.user, CountOf(Counts(Events(before) + [e]), e.user), now))
  }

  function Acts(hs: seq<Happening>): (acts: seq<Act>)
    ensures |acts| == |hs|
  {
    if hs == [] then []
    else
      var before := hs[..|hs| - 1];
      Acts(before) + [ActOf(before, hs[|hs| - 1])]
  }

  ghost function Now(site: Site, idle: int, hs: seq<Happening>): World {
    After(NewSystem(site), idle, Acts(hs))
  }

  predicate WritesCount(h: Happening) {
    h.Acted? && h.act.Operated? && h.act.op.SetWSConnections?
  }

  /** A possible run in which relays are bracketed and nobody else writes counts. */
  ghost predicate Sound(site: Site, idle: int, hs: seq<Happening>) {
    && Possible(NewSystem(site), idle, Acts(hs))
    && Bracketed(Events(hs))
    && forall k :: 0 <= k < |hs| ==> !WritesCount(hs[k])
  }

  lemma EventsThen(before: seq<Happening>, h: Happening)
    ensures Events(before + [h]) == if h.Relayed? then Events(before) + [h.event] else Events(before)
    ensures Acts(before + [h]) == Acts(before) + [ActOf(before, h)]
  {
    assert (before + [h])[..|before|] == before;
  }

  lemma SoundBefore(site: Site, idle: int, before: seq<Happening>, h: Happening)
    requires Sound(site, idle, before + [h])
    ensures Sound(site, idle, before)
    ensures Enabled(Now(site, idle, before), ActOf(before, h))
    ensures Now(site, idle, before + [h]) == Do(Now(site, idle, before), ActOf(before, h), |before|, idle)
  {
    EventsThen(before, h);
    Then(NewSystem(site), idle, Acts(before), ActOf(before, h));
    assert h.Relayed? ==> (Events(before) + [h.event])[..|Events(before)|] == Events(before);
    assert forall k :: 0 <= k < |before| ==> (before + [h])[k] == before[k];
  }

  /** u's instance was deleted after his latest relay had opened or closed. */
  ghost predicate DeletedSince(site: Site, idle: int, hs: seq<Happening>, u: string) {
    hs != [] &&
    var before := hs[..|hs| - 1];
    match hs[|hs| - 1]
    case Relayed(e, _) => e.user != u && DeletedSince(site, idle, before, u)
    case Acted(act) =>
      || (act.Operated? && act.op.Delete? && act.op.user == u
          && Effect(Now(site, idle, before).system, act.op).1.fault.None?)
      || DeletedSince(site, idle, before, u)
  }

  lemma CountStep(w: World, act: Act, at: nat, idle: int, u: string)
    requires Enabled(w, act)
    ensures Connections(Do(w, act, at, idle).system, u) ==
            if act.Operated? && act.op.SetWSConnections? && act.op.user == u then act.op.n
            else if act.Operated? && act.op.Delete? && act.op.user == u && Effect(w.system, act.op).1.fault.None? then 0
            else Connections(w.system, u)
  {
    match act
    case Operated(op) => ConnectionsStep(w.system, op, u);
    case Suspends(env) => ConnectionsStep(w.system, Op.Suspend(w.scan.due.value.user, env), u);
    case _ =>
  }

  /** In every interleaving the stored count is the number of open relays, or none after a delete. */
  lemma {:induction false} StoredCountIsOpenRelays(site: Site, idle: int, hs: seq<Happening>, u: string)
    requires Sound(site, idle, hs)
    ensures Connections(Now(site, idle, hs).system, u) ==
            if DeletedSince(site, idle, hs, u) then 0 else |OpenRelays(Events(hs), u)|
    decreases |hs|
  {
    if hs != [] {
      var before, h := hs[..|hs| - 1], hs[|hs| - 1];
      assert hs == before + [h];
      SoundBefore(site, idle, before, h);
      EventsThen(before, h);
      StoredCountIsOpenRelays(site, idle, before, u);
      CountStep(Now(site, idle, before), ActOf(before, h), |before|, idle, u);
      if h.Relayed? {
        CountsAreOpenRelays(Events(hs), u);
        assert Events(hs)[..|Events(hs)| - 1] == Events(before);
      }
    }
  }

  // --- A read ------------------------------------------------------------------------------------------

  /**
   However long a user with an open relay is idle, no read finds him due, exactly if no delete came
   after his latest relay event.
   */
  lemma {:induction false} OpenRelayIsNotDueIff(site: Site, idle: int, hs: seq<Happening>, u: string)
    requires Sound(site, idle, hs) && OpenRelays(Events(hs), u) != {}
    ensures (forall span, read, since :: span > 0 ==> !IsDue(Now(site, idle, hs).system, u, span, read, since))
            <==> !DeletedSince(site, idle, hs, u)
  {
    var s := Now(site, idle, hs).system;
    StoredCountIsOpenRelays(site, idle, hs, u);
    if DeletedSince(site, idle, hs, u) {
      assert IsDue(s, u, 1, 0, s.ActivityOf(u, 0).lastActiveAt + 1);
    }
  }

  // --- A suspend -----------------------------------------------------------------------------------------

  lemma {:induction false} EarlierHappenings(site: Site, idle: int, hs: seq<Happening>, k: nat) returns (m: nat)
    requires Sound(site, idle, hs) && k <= |hs|
    ensures Sound(site, idle, hs[..k]) && Acts(hs[..k]) == Acts(hs)[..k]
    ensures m <= |Events(hs)| && Events(hs[..k]) == Events(hs)[..m]
    decreases |hs|
  {
    hide Sound, ActOf;
    if k == |hs| {
      assert hs[..k] == hs && Acts(hs)[..k] == Acts(hs);
      m := |Events(hs)|;
      assert Events(hs)[..m] == Events(hs);
    } else {
      var before, h := hs[..|hs| - 1], hs[|hs| - 1];
      assert hs == before + [h] && before[..k] == hs[..k];
      SoundBefore(site, idle, before, h);
      EventsThen(before, h);
      m := EarlierHappenings(site, idle, before, k);
      assert Acts(before)[..k] == Acts(hs)[..k];
      assert Events(before)[..m] == Events(hs)[..m];
    }
  }

  /** u's relays that are open now and had never been opened when his activity was read. */
  function OpenedSince(hs: seq<Happening>, readAt: nat, u: string): set<nat>
    requires readAt <= |hs|
  {
    OpenRelays(Events(hs), u) - Opened(Events(hs[..readAt]))
  }

  /** u's relays that were open when his activity was read and still are. */
  function OpenThroughout(hs: seq<Happening>, readAt: nat, u: string): set<nat>
    requires readAt <= |hs|
  {
    OpenRelays(Events(hs), u) * OpenRelays(Events(hs[..readAt]), u)
  }

  /**
   The reaper is about to suspend u. He has an open relay exactly if one opened after his activity was
   read, or if one was open at the read and his instance had by then been deleted under it.
   */
  lemma {:induction false} ReapedUnderOpenRelayIff(site: Site, idle: int, hs: seq<Happening>, u: string, readAt: nat)
    requires Sound(site, idle, hs) && Now(site, idle, hs).scan.due == Some(Due(u, readAt))
    ensures readAt < |hs| && hs[readAt].Acted? && hs[readAt].act.Reads?
    ensures OpenRelays(Events(hs), u) != {} <==>
            || OpenedSince(hs, readAt, u) != {}
            || (DeletedSince(site, idle, hs[..readAt], u) && OpenThroughout(hs, readAt, u) != {})
    ensures !DeletedSince(site, idle, hs[..readAt], u) ==> OpenRelays(Events(hs), u) == OpenedSince(hs, readAt, u)
  {
    var acts := Acts(hs);
    ScanKeeps(NewSystem(site), idle, acts);
    ActsAt(hs, readAt);
    var atRead := hs[..readAt];
    var m := EarlierHappenings(site, idle, hs, readAt);
    StoredCountIsOpenRelays(site, idle, atRead, u);
    assert Connections(Now(site, idle, atRead).system, u) <= 0;
    forall relay | relay in OpenRelays(Events(hs), u) && relay in Opened(Events(atRead))
      ensures relay in OpenRelays(Events(atRead), u)
    {
      ClosedStaysClosed(Events(hs), m, relay, u);
    }
    var now := OpenRelays(Events(hs), u);
    assert now == OpenedSince(hs, readAt, u) + OpenThroughout(hs, readAt, u) by {
      OpenWereOpened(Events(atRead), u);
    }
  }

  lemma {:induction false} ActsAt(hs: seq<Happening>, k: nat)
    requires k < |hs|
    ensures Acts(hs)[k] == ActOf(hs[..k], hs[k])
    decreases |hs|
  {
    if k < |hs| - 1 {
      ActsAt(hs[..|hs| - 1], k);
      assert hs[..|hs| - 1][..k] == hs[..k];
    }
  }

  // --- Both cases happen ---------------------------------------------------------------------------------

  /** Sound, and the platform gives out no sandbox id twice. */
  ghost predicate SoundAndFresh(site: Site, idle: int, hs: seq<Happening>) {
    Sound(site, idle, hs) && FreshIDs(NewSystem(site), idle, Acts(hs))
  }

  lemma NothingYet(site: Site, idle: int)
    ensures SoundAndFresh(site, idle, []) && Now(site, idle, []) == World(NewSystem(site), NO_SCAN)
  {
  }

  lemma ActThen(site: Site, idle: int, hs: seq<Happening>, act: Act) returns (more: seq<Happening>)
    requires SoundAndFresh(site, idle, hs) && Enabled(Now(site, idle, hs), act) && !WritesCount(Acted(act))
    requires act.Operated? ==> FreshID(Now(site, idle, hs).system, act.op)
    ensures more == hs + [Acted(act)] && SoundAndFresh(site, idle, more) && Events(more) == Events(hs)
    ensures Now(site, idle, more) == Do(Now(site, idle, hs), act, |hs|, idle)
    ensures !act.Operated? || !act.op.Delete? ==>
              DeletedSince(site, idle, more, USER) == DeletedSince(site, idle, hs, USER)
  {
    more := hs + [Acted(act)];
    if !act.Operated? || !act.op.Delete? {
      NotDeleted(site, idle, hs, act);
    }
    EventsThen(hs, Acted(act));
    hide After, Possible, FreshIDs, Do, Enabled, FreshID, Events, Acts, Bracketed, DeletedSince;
    Then(NewSystem(site), idle, Acts(hs), act);
    FreshThen(NewSystem(site), idle, Acts(hs), act);
  }

  lemma NotDeleted(site: Site, idle: int, hs: seq<Happening>, act: Act)
    requires !act.Operated? || !act.op.Delete?
    ensures DeletedSince(site, idle, hs + [Acted(act)], USER) == DeletedSince(site, idle, hs, USER)
  {
    hide Now;
    assert (hs + [Acted(act)])[..|hs|] == hs;
  }

  lemma OpenThen(site: Site, idle: int, hs: seq<Happening>, relay: nat, now: int) returns (more: seq<Happening>)
    requires SoundAndFresh(site, idle, hs) && Events(hs) == []
    ensures more == hs + [Relayed(Open(relay, USER), now)] && SoundAndFresh(site, idle, more)
    ensures OpenRelays(Events(more), USER) == {relay} && !DeletedSince(site, idle, more, USER)
    ensures Opened(Events(hs)) == {}
    ensures Now(site, idle, more).scan == Now(site, idle, hs).scan
    ensures Now(site, idle, more).system == Now(site, idle, hs).system.SetWSConnections(USER, 1, now)
  {
    var e := Open(relay, USER);
    more := hs + [Relayed(e, now)];
    EventsThen(hs, Relayed(e, now));
    assert more[..|hs|] == hs;
    assert [e][..0] == [] && [] + [e] == [e];
    CountsAreOpenRelays([e], USER);
    assert OpenRelays([e], USER) == {relay} && |{relay}| == 1;
    assert ActOf(hs, Relayed(e, now)) == Operated(Op.SetWSConnections(USER, 1, now));
    Then(NewSystem(site), idle, Acts(hs), ActOf(hs, Relayed(e, now)));
    FreshThen(NewSystem(site), idle, Acts(hs), ActOf(hs, Relayed(e, now)));
  }

  function ReadActs(idle: int): seq<Happening> {
    [Acted(Operated(Touch(USER, 0))), Acted(Lists([USER])), Acted(Reads(idle, idle))]
  }

  /** A scan that reads the only user as due, touched at time 0 and read one idle timeout later. */
  lemma ReadDue(site: Site, idle: int, hs: seq<Happening>, sandboxID: string) returns (more: seq<Happening>)
    requires SoundAndFresh(site, idle, hs)
    requires OneRunning(Now(site, idle, hs).system, sandboxID) && Now(site, idle, hs).scan == NO_SCAN
    requires Connections(Now(site, idle, hs).system, USER) == 0
    ensures SoundAndFresh(site, idle, more) && more == hs + ReadActs(idle)
    ensures Events(more) == Events(more[..|hs| + 2]) == Events(hs)
    ensures OneRunning(Now(site, idle, more).system, sandboxID)
    ensures Now(site, idle, more).scan.due == Some(Due(USER, |hs| + 2))
    ensures DeletedSince(site, idle, more[..|hs| + 2], USER) == DeletedSince(site, idle, hs, USER)
  {
    hide SoundAndFresh, Now, DeletedSince, Events;
    var touched := ActThen(site, idle, hs, Operated(Touch(USER, 0)));
    assert Enumerates([USER], Now(site, idle, touched).system);
    var listed := ActThen(site, idle, touched, Lists([USER]));
    more := ActThen(site, idle, listed, Reads(idle, idle));
    assert more[..|hs| + 2] == listed;
  }

  /** A sound run at whose end the reaper is about to suspend the only user, and can. */
  ghost predicate AboutToSuspend(site: Site, idle: int, hs: seq<Happening>, readAt: nat) {
    && SoundAndFresh(site, idle, hs) && Now(site, idle, hs).scan.due == Some(Due(USER, readAt))
    && readAt < |hs| && Suspendable(Now(site, idle, hs).system)
  }

  predicate Suspendable(s: System) {
    var t := s.Suspend(USER, Fine("")).0;
    USER in s.store && s.store[USER].status == Running && USER in t.store && t.store[USER].status == Suspended
  }

  lemma RunningIsSuspendable(s: System, sandboxID: string)
    requires OneRunning(s, sandboxID)
    ensures Suspendable(s)
  {
  }

  predicate NoDelete(hs: seq<Happening>) {
    forall k :: 0 <= k < |hs| && hs[k].Acted? && hs[k].act.Operated? ==> !hs[k].act.op.Delete?
  }

  /** The relay opens between the read and the suspend. Nothing is ever deleted. */
  lemma OpenedTooLate(site: Site, idle: int) returns (hs: seq<Happening>, readAt: nat)
    ensures AboutToSuspend(site, idle, hs, readAt) && OpenedSince(hs, readAt, USER) == {0} && NoDelete(hs)
  {
    hide SoundAndFresh, Now, Effect, OneRunning, Suspendable, DeletedSince, OpenRelays, Opened, Events;
    NothingYet(site, idle);
    CreateRuns(NewSystem(site), "a");
    var created := ActThen(site, idle, [], Operated(Op.Create(USER, Fine("a"))));
    var read := ReadDue(site, idle, created, "a");
    NothingOpened();
    hs := OpenThen(site, idle, read, 0, idle);
    readAt := 3;
    assert hs == created + ReadActs(idle) + [Relayed(Open(0, USER), idle)];
    assert hs[..readAt] == read[..readAt];
    OneRunningStays(Now(site, idle, read).system, "a", 1, idle);
    RunningIsSuspendable(Now(site, idle, hs).system, "a");
  }

  lemma NothingOpened()
    ensures Events([]) == [] && Opened([]) == {}
  {
  }

  lemma OneRunningStays(s: System, sandboxID: string, n: int, now: int)
    requires OneRunning(s, sandboxID)
    ensures OneRunning(s.SetWSConnections(USER, n, now), sandboxID)
  {
  }

  /** The instance is deleted under an open relay, and the user makes a new one. */
  lemma MadeAgain(site: Site, idle: int) returns (hs: seq<Happening>)
    ensures SoundAndFresh(site, idle, hs)
    ensures OneRunning(Now(site, idle, hs).system, "b") && Now(site, idle, hs).scan == NO_SCAN
    ensures Connections(Now(site, idle, hs).system, USER) == 0
    ensures OpenRelays(Events(hs), USER) == {0} && DeletedSince(site, idle, hs, USER)
  {
    hide SoundAndFresh, Now, Effect, OneRunning, OpenRelays, Opened, Events;
    NothingYet(site, idle);
    NothingOpened();
    CreateRuns(NewSystem(site), "a");
    var created := ActThen(site, idle, [], Operated(Op.Create(USER, Fine("a"))));
    var relayed := OpenThen(site, idle, created, 0, 0);
    OneRunningStays(Now(site, idle, created).system, "a", 1, 0);
    DeleteWorks(Now(site, idle, relayed).system, "a");
    var deleted := ActThen(site, idle, relayed, Operated(Op.Delete(USER, Fine(""))));
    assert deleted[..|relayed|] == relayed;
    CreateRuns(Now(site, idle, deleted).system, "b");
    hs := ActThen(site, idle, deleted, Operated(Op.Create(USER, Fine("b"))));
  }

  lemma DeletedUnderRelay(site: Site, idle: int) returns (hs: seq<Happening>, readAt: nat)
    ensures AboutToSuspend(site, idle, hs, readAt) && OpenThroughout(hs, readAt, USER) == {0}
    ensures DeletedSince(site, idle, hs[..readAt], USER)
  {
    hide SoundAndFresh, Now, Effect, OneRunning, Suspendable, DeletedSince, OpenRelays, Opened, Events;
    var again := MadeAgain(site, idle);
    hs := ReadDue(site, idle, again, "b");
    readAt := |again| + 2;
    RunningIsSuspendable(Now(site, idle, hs).system, "b");
  }
}
