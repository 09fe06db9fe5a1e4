/** Reference counts of WebSocket relays, kept per user and pushed to the store on every change. */
module Relay {
  import opened Manager

  /** A relay is one run of `handleSessionWS`: it opens once, and its deferred call closes it. */
  datatype Event = Open(relay: nat, user: string) | Close(relay: nat, user: string)
  {
    function Delta(): int {
      if Open? then 1 else -1
    }
  }

  function CountOf(counts: map<string, int>, u: string): int {
    if u in counts then counts[u] else 0
  }

  /** `addWS`: an entry that would not be positive is deleted. */
  function Adjusted(counts: map<string, int>, u: string, delta: int): map<string, int> {
    var n := CountOf(counts, u) + delta;
    if n <= 0 then counts - {u} else counts[u := n]
  }

  class Server {
    const manager: Manager
    var wsManager: map<string, int>

    constructor (manager: Manager)
      ensures this.manager == manager && wsManager == map[]
    {
      this.manager := manager;
      wsManager := map[];
    }

    /** Changes the count and writes it to the user's activity record. */
    method AddWS(u: string, delta: int, now: int)
      requires manager.Valid() && this !in manager.Footprint()
      modifies this, manager.store.Repr
      ensures manager.Valid() && fresh(manager.store.Repr - old(manager.store.Repr))
      ensures this !in manager.Footprint()
      ensures wsManager == Adjusted(old(wsManager), u, delta)
      ensures manager.View() == old(manager.View()).SetWSConnections(u, CountOf(wsManager, u), now)
      ensures manager.View().activity[u].wsConnections == CountOf(wsManager, u)
    {
      var n := delta;
      if u in wsManager {
        n := wsManager[u] + delta;
      }
      wsManager := wsManager[u := n];
      if n <= 0 {
        wsManager := wsManager - {u};
      }
      assert wsManager == Adjusted(old(wsManager), u, delta);
      assert manager.View() == old(manager.View());
      manager.SetWSConnections(u, if u in wsManager then wsManager[u] else 0, now);
    }
  }

  /** The relays of u that are open after the events. */
  function OpenRelays(events: seq<Event>, u: string): set<nat> {
    if events == [] then {}
    else
      var before := OpenRelays(events[..|events| - 1], u);
      match events[|events| - 1]
      case Open(relay, user) => if user == u then before + {relay} else before
      case Close(relay, user) => if user == u then before - {relay} else before
  }

  /** The relays of all users that have ever been opened. */
  function Opened(events: seq<Event>): set<nat> {
    if events == [] then {}
    else
      var before, e := Opened(events[..|events| - 1]), events[|events| - 1];
      if e.Open? then before + {e.relay} else before
  }

  function Counts(events: seq<Event>): map<string, int> {
    if events == [] then map[]
    else
      var e := events[|events| - 1];
      Adjusted(Counts(events[..|events| - 1]), e.user, e.Delta())
  }

  /** A relay opens once, and closes only while it is open. */
  predicate Bracketed(events: seq<Event>) {
    events == [] ||
    var before, e := events[..|events| - 1], events[|events| - 1];
    Bracketed(before) &&
    if e.Open? then e.relay !in Opened(before) else e.relay in OpenRelays(before, e.user)
  }

  lemma {:induction false} OpenWereOpened(events: seq<Event>, u: string)
    ensures OpenRelays(events, u) <= Opened(events)
    decreases |events|
  {
    if events != [] {
      OpenWereOpened(events[..|events| - 1], u);
    }
  }

  /** A relay that was opened by some event and is not open then stays closed. */
  lemma {:induction false} ClosedStaysClosed(events: seq<Event>, k: nat, relay: nat, u: string)
    requires Bracketed(events) && k <= |events|
    requires relay in OpenRelays(events, u) && relay in Opened(events[..k])
    ensures relay in OpenRelays(events[..k], u)
    decreases |events|
  {
    if k == |events| {
      assert events[..k] == events;
    } else {
      var before := events[..|events| - 1];
      assert before[..k] == events[..k];
      OpenedGrows(before, k);
      ClosedStaysClosed(before, k, relay, u);
    }
  }

  lemma {:induction false} OpenedGrows(events: seq<Event>, k: nat)
    requires k <= |events|
    ensures Opened(events[..k]) <= Opened(events)
    decreases |events|
  {
    if k == |events| {
      assert events[..k] == events;
    } else {
      var before := events[..|events| - 1];
      assert before[..k] == events[..k];
      OpenedGrows(before, k);
    }
  }

  /** Over every interleaving, the table holds each user's number of open relays, and no zeros. */
  lemma {:induction false} CountsAreOpenRelays(events: seq<Event>, u: string)
    requires Bracketed(events)
    ensures CountOf(Counts(events), u) == |OpenRelays(events, u)|
    ensures u in Counts(events) <==> OpenRelays(events, u) != {}
    decreases |events|
  {
    if events != [] {
      var before, e := events[..|events| - 1], events[|events| - 1];
      CountsAreOpenRelays(before, u);
      CountsAreOpenRelays(before, e.user);
      OpenWereOpened(before, e.user);
    }
  }
}
