/**
 The memory store and the config cache on the heap. `Memory` keeps records as objects and copies
 them on the way in and on the way out, so that a caller who edits a record he was given changes
 nothing in the store before he hands it back.
 */
module Store {
  import opened Options
  import opened Lifecycle

  class Instance {
    var userID: string
    var instanceName: string
    var status: Status
    var workspace: string
    var endpoint: string
    var port: int
    var sandboxID: string
    var error: Option<Fault>
    var lastActiveAt: int
    var wsConnections: int
    var createdAt: int
    var updatedAt: int

    constructor (v: InstanceValue)
      ensures Value() == v
    {
      userID, instanceName, status := v.userID, v.instanceName, v.status;
      workspace, endpoint, port, sandboxID := v.workspace, v.endpoint, v.port, v.sandboxID;
      error, lastActiveAt, wsConnections := v.error, v.lastActiveAt, v.wsConnections;
      createdAt, updatedAt := v.createdAt, v.updatedAt;
    }

    function Value(): InstanceValue
      reads this
    {
      InstanceValue(userID, instanceName, status, workspace, endpoint, port, sandboxID, error,
                    lastActiveAt, wsConnections, createdAt, updatedAt)
    }
  }

  class Activity {
    var userID: string
    var wsConnections: int
    var lastActiveAt: int

    constructor (v: ActivityValue)
      ensures Value() == v
    {
      userID, wsConnections, lastActiveAt := v.userID, v.wsConnections, v.lastActiveAt;
    }

    function Value(): ActivityValue
      reads this
    {
      ActivityValue(userID, wsConnections, lastActiveAt)
    }
  }

  /** The order of strings in Go: the first difference decides, and a prefix comes first. */
  predicate Before(a: string, b: string) {
    b != "" && (a == "" || a[0] < b[0] || (a[0] == b[0] && Before(a[1..], b[1..])))
  }

  lemma {:induction false} BeforeIsStrict(a: string, b: string)
    ensures !(Before(a, b) && Before(b, a)) && (a != b ==> Before(a, b) || Before(b, a))
    ensures !Before(a, a)
    decreases |a|
  {
    if a != "" {
      if b != "" && a[0] == b[0] {
        BeforeIsStrict(a[1..], b[1..]);
        assert a == [a[0]] + a[1..] && b == [b[0]] + b[1..];
      } else {
        BeforeIsStrict(a[1..], a[1..]);
      }
    }
  }

  lemma {:induction false} BeforeIsTransitive(a: string, b: string, c: string)
    requires Before(a, b) && Before(b, c)
    ensures Before(a, c)
    decreases |a|
  {
    if a != "" && a[0] == b[0] == c[0] {
      BeforeIsTransitive(a[1..], b[1..], c[1..]);
    }
  }

  ghost predicate InOrder(ids: seq<string>) {
    forall j, k :: 0 <= j < k < |ids| ==> Before(ids[j], ids[k])
  }

  /** Puts an id where it belongs. */
  method Insert(ids: seq<string>, u: string) returns (more: seq<string>)
    requires InOrder(ids) && u !in ids
    ensures InOrder(more) && forall v :: v in more <==> v in ids || v == u
  {
    var i := |ids|;
    while i > 0 && Before(u, ids[i - 1])
      invariant 0 <= i <= |ids|
      invariant forall k :: i <= k < |ids| ==> Before(u, ids[k])
    {
      i := i - 1;
    }
    if i > 0 {
      BeforeIsStrict(u, ids[i - 1]);
    }
    forall k | 0 <= k < i
      ensures Before(ids[k], u)
    {
      if k < i - 1 {
        BeforeIsTransitive(ids[k], ids[i - 1], u);
      }
    }
    more := ids[..i] + [u] + ids[i..];
  }

  /** All keys in order. */
  method SortedKeys(keys: set<string>) returns (ids: seq<string>)
    ensures InOrder(ids) && forall u :: u in ids <==> u in keys
  {
    ids := [];
    var todo := keys;
    while todo != {}
      invariant todo <= keys && InOrder(ids) && forall u :: u in ids <==> u in keys - todo
      decreases todo
    {
      var u :| u in todo;
      ids := Insert(ids, u);
      todo := todo - {u};
    }
  }

  class Memory {
    var instances: map<string, Instance>
    var activity: map<string, Activity>
    ghost var Repr: set<object>

    ghost predicate Valid()
      reads this, Repr
    {
      && this in Repr
      && (forall u :: u in instances ==> instances[u] in Repr && instances[u].userID == u)
      && (forall u :: u in activity ==> activity[u] in Repr)
      && (forall u, v :: u in activity && v in activity && activity[u] == activity[v] ==> u == v)
    }

    ghost function Records(): map<string, InstanceValue>
      requires Valid()
      reads this, Repr
    {
      map u | u in instances :: instances[u].Value()
    }

    ghost function Activities(): map<string, ActivityValue>
      requires Valid()
      reads this, Repr
    {
      map u | u in activity :: activity[u].Value()
    }

    constructor ()
      ensures Valid() && fresh(Repr) && Records() == map[] && Activities() == map[]
    {
      instances, activity := map[], map[];
      Repr := {this};
    }

    method CreateInstance(inst: Instance)
      requires Valid()
      modifies this
      ensures Valid() && fresh(Repr - old(Repr)) && old(Repr) <= Repr
      ensures Records() == old(Records())[inst.userID := inst.Value()]
      ensures Activities() == old(Activities())
    {
      var copy := new Instance(inst.Value());
      instances := instances[inst.userID := copy];
      Repr := Repr + {copy};
    }

    method GetInstance(userID: string) returns (inst: Instance?)
      requires Valid()
      ensures inst == null <==> userID !in Records()
      ensures inst != null ==> fresh(inst) && inst.Value() == Records()[userID]
    {
      if userID !in instances {
        return null;
      }
      inst := new Instance(instances[userID].Value());
    }

    method UpdateInstance(inst: Instance) returns (found: bool)
      requires Valid()
      modifies this
      ensures Valid() && fresh(Repr - old(Repr)) && old(Repr) <= Repr
      ensures found == (inst.userID in old(Records()))
      ensures Records() == if found then old(Records())[inst.userID := inst.Value()] else old(Records())
      ensures Activities() == old(Activities())
    {
      if inst.userID !in instances {
        return false;
      }
      var copy := new Instance(inst.Value());
      instances := instances[inst.userID := copy];
      Repr := Repr + {copy};
      found := true;
    }

    method DeleteInstance(userID: string)
      requires Valid()
      modifies this
      ensures Valid() && Repr == old(Repr)
      ensures Records() == old(Records()) - {userID} && Activities() == old(Activities()) - {userID}
    {
      instances := instances - {userID};
      activity := activity - {userID};
    }

    /** The activity object of a user, made and entered when there is none. */
    method Enter(userID: string, initial: ActivityValue) returns (act: Activity)
      requires Valid()
      modifies this
      ensures Valid() && fresh(Repr - old(Repr)) && old(Repr) <= Repr
      ensures userID in activity && activity[userID] == act
      ensures Records() == old(Records())
      ensures act.Value() == if userID in old(Activities()) then old(Activities())[userID] else initial
      ensures Activities() == old(Activities())[userID := act.Value()]
    {
      if userID in activity {
        act := activity[userID];
      } else {
        act := new Activity(initial);
        Add(userID, act);
      }
    }

    method Add(userID: string, act: Activity)
      requires Valid() && userID !in activity && act !in Repr
      modifies this
      ensures Valid() && Repr == old(Repr) + {act} && activity == old(activity)[userID := act]
      ensures Records() == old(Records())
      ensures Activities() == old(Activities())[userID := act.Value()]
    {
      Repr := Repr + {act};
      activity := activity[userID := act];
    }

    method Amend(userID: string, n: int, now: int)
      requires Valid() && userID in activity
      modifies activity[userID]
      ensures Valid() && Repr == old(Repr)
      ensures Records() == old(Records())
      ensures Activities() == old(Activities())[userID :=
        old(Activities())[userID].(wsConnections := n, lastActiveAt := now)]
    {
      var act := activity[userID];
      act.wsConnections := n;
      act.lastActiveAt := now;
    }

    method TouchActivity(userID: string, now: int)
      requires Valid()
      modifies Repr
      ensures Valid() && fresh(Repr - old(Repr)) && old(Repr) <= Repr
      ensures Records() == old(Records())
      ensures var known := old(Activities());
              var act := if userID in known then known[userID] else ActivityValue(userID, 0, now);
              Activities() == old(Activities())[userID := act.(lastActiveAt := now)]
    {
      var act := Enter(userID, ActivityValue(userID, 0, 0));
      Amend(userID, act.wsConnections, now);
    }

    method SetWSConnections(userID: string, n: int, now: int)
      requires Valid()
      modifies Repr
      ensures Valid() && fresh(Repr - old(Repr)) && old(Repr) <= Repr
      ensures Records() == old(Records())
      ensures var known := old(Activities());
              var act := if userID in known then known[userID] else ActivityValue(userID, 0, now);
              Activities() == old(Activities())[userID := act.(wsConnections := n, lastActiveAt := now)]
    {
      var act := Enter(userID, ActivityValue(userID, 0, now));
      Amend(userID, n, now);
    }

    /** A user without a record counts as active right now. */
    method GetActivity(userID: string, now: int) returns (act: Activity)
      requires Valid()
      ensures fresh(act)
      ensures act.Value() == if userID in Activities() then Activities()[userID] else ActivityValue(userID, 0, now)
    {
      if userID in activity {
        act := new Activity(activity[userID].Value());
      } else {
        act := new Activity(ActivityValue(userID, 0, now));
      }
    }

    /** A copy of every record, sorted by user. */
    method ListInstances() returns (out: seq<Instance>)
      requires Valid()
      ensures forall k :: 0 <= k < |out| ==> fresh(out[k])
      ensures forall k :: 0 <= k < |out| ==> out[k].userID in Records() && out[k].Value() == Records()[out[k].userID]
      ensures forall u :: u in Records() ==> exists k :: 0 <= k < |out| && out[k].userID == u
      ensures forall j, k :: 0 <= j < k < |out| ==> Before(out[j].userID, out[k].userID)
    {
      var ids := SortedKeys(instances.Keys);
      out := [];
      for i := 0 to |ids|
        invariant |out| == i
        invariant forall k :: 0 <= k < i ==>
                                fresh(out[k]) && out[k].userID == ids[k] && out[k].Value() == instances[ids[k]].Value()
      {
        var copy := new Instance(instances[ids[i]].Value());
        out := out + [copy];
      }
      forall u | u in Records()
        ensures exists k :: 0 <= k < |out| && out[k].userID == u
      {
        var k :| 0 <= k < |ids| && ids[k] == u;
        assert out[k].userID == u;
      }
    }
  }

  /** The in-process config cache; entries are held by value and expire lazily. */
  class MemoryCache {
    var data: map<string, CacheEntry>
    var ttl: int

    constructor (ttl: int)
      ensures data == map[] && this.ttl == ttl
    {
      data := map[];
      this.ttl := ttl;
    }

    method Set(userID: string, cfg: ModelConfig, ttl: int, now: int)
      modifies this`data
      ensures data == old(data)[userID := CacheEntry(cfg, now + if ttl <= 0 then this.ttl else ttl)]
    {
      var span := ttl;
      if span <= 0 {
        span := this.ttl;
      }
      data := data[userID := CacheEntry(cfg, now + span)];
    }

    method Get(userID: string, now: int) returns (cfg: Option<ModelConfig>)
      ensures cfg == if userID in data && now <= data[userID].expireAt then Some(data[userID].cfg) else None
    {
      if userID !in data {
        return None;
      }
      var entry := data[userID];
      if now > entry.expireAt {
        return None;
      }
      cfg := Some(entry.cfg);
    }

    method Delete(userID: string)
      modifies this`data
      ensures data == old(data) - {userID}
    {
      data := data - {userID};
    }
  }
}
