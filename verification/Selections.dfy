/** Picking elements of a sequence by their positions: all of the wanted ones, or the last of them. */
module Selections {

  ghost predicate Ascending(ps: seq<nat>) {
    forall i, j :: 0 <= i < j < |ps| ==> ps[i] < ps[j]
  }

  ghost predicate IsPick<T>(picked: seq<T>, all: seq<T>, wanted: set<nat>, ps: seq<nat>) {
    && |ps| == |picked| && Ascending(ps)
    && forall j :: 0 <= j < |ps| ==> ps[j] in wanted && ps[j] < |all| && picked[j] == all[ps[j]]
  }

  /** The wanted positions that are left out come before all that are not. */
  ghost predicate LeavesOutFirst(ps: seq<nat>, len: nat, wanted: set<nat>) {
    forall k :: k in wanted && k < len && k !in ps ==> ps != [] && k < ps[0]
  }

  ghost predicate LeavesOutNone(ps: seq<nat>, len: nat, wanted: set<nat>) {
    forall k :: k in wanted && k < len ==> k in ps
  }

  ghost predicate PicksAll<T>(picked: seq<T>, all: seq<T>, wanted: set<nat>) {
    exists ps :: IsPick(picked, all, wanted, ps) && LeavesOutNone(ps, |all|, wanted)
  }

  /**
   The elements at the wanted positions in their order, or the last n of them if there are more. A limit
   that is not positive is none.
   */
  ghost predicate PicksLast<T>(picked: seq<T>, all: seq<T>, wanted: set<nat>, n: int) {
    && (n > 0 ==> |picked| <= n)
    && exists ps :: IsPick(picked, all, wanted, ps)
                    && if n > 0 && |picked| == n then LeavesOutFirst(ps, |all|, wanted)
                       else LeavesOutNone(ps, |all|, wanted)
  }

  lemma PicksNothing<T>(wanted: set<nat>)
    ensures PicksAll<T>([], [], wanted)
  {
    assert IsPick<T>([], [], wanted, []) && LeavesOutNone([], 0, wanted);
  }

  lemma LongerIsPick<T>(picked: seq<T>, all: seq<T>, wanted: set<nat>, ps: seq<nat>, last: T)
    requires IsPick(picked, all, wanted, ps) && |all| in wanted
    ensures IsPick(picked + [last], all + [last], wanted, ps + [|all|])
  {
  }

  lemma WiderIsPick<T>(picked: seq<T>, all: seq<T>, wanted: set<nat>, ps: seq<nat>, last: T, more: set<nat>)
    requires IsPick(picked, all, wanted, ps)
    requires forall k :: 0 <= k < |all| && k in wanted ==> k in more
    ensures IsPick(picked, all, more, ps) && IsPick(picked, all + [last], more, ps)
  {
  }

  lemma LongerLeavesOutNone(ps: seq<nat>, len: nat, wanted: set<nat>, more: set<nat>)
    requires LeavesOutNone(ps, len, wanted)
    requires forall k :: 0 <= k < len && k in more ==> k in wanted
    ensures LeavesOutNone(ps + [len], len + 1, more)
    ensures len !in more ==> LeavesOutNone(ps, len + 1, more)
  {
    assert (ps + [len])[|ps|] == len;
    assert forall k :: k in ps ==> k in ps + [len];
  }

  /** One more element, picked or not. */
  lemma PicksMore<T>(picked: seq<T>, all: seq<T>, wanted: set<nat>, last: T, more: set<nat>)
    requires PicksAll(picked, all, wanted)
    requires forall k :: 0 <= k < |all| ==> (k in more <==> k in wanted)
    ensures PicksAll(if |all| in more then picked + [last] else picked, all + [last], more)
  {
    var ps :| IsPick(picked, all, wanted, ps) && LeavesOutNone(ps, |all|, wanted);
    hide IsPick, LeavesOutNone;
    WiderIsPick(picked, all, wanted, ps, last, more);
    LongerLeavesOutNone(ps, |all|, wanted, more);
    if |all| in more {
      LongerIsPick(picked, all, more, ps, last);
    }
  }

  lemma EndLeavesOutFirst(ps: seq<nat>, len: nat, wanted: set<nat>, from: nat)
    requires Ascending(ps) && LeavesOutNone(ps, len, wanted) && from < |ps|
    ensures LeavesOutFirst(ps[from..], len, wanted)
  {
    assert forall j :: from <= j < |ps| ==> ps[from..][j - from] == ps[j];
    forall k | k in wanted && k < len && k !in ps[from..]
      ensures k < ps[from..][0]
    {
      var j :| 0 <= j < |ps| && ps[j] == k;
      assert j < from;
    }
  }

  lemma EndIsPick<T>(picked: seq<T>, all: seq<T>, wanted: set<nat>, ps: seq<nat>, from: nat)
    requires IsPick(picked, all, wanted, ps) && from <= |ps|
    ensures IsPick(picked[from..], all, wanted, ps[from..])
  {
  }

  /** The end of what was picked, of length n if anything is dropped. */
  lemma EndOfPick<T>(picked: seq<T>, all: seq<T>, wanted: set<nat>, from: nat, n: int)
    requires PicksAll(picked, all, wanted) && from <= |picked|
    requires n > 0 ==> |picked| - from <= n
    requires from > 0 ==> n > 0 && |picked| - from == n
    ensures PicksLast(picked[from..], all, wanted, n)
  {
    var ps :| IsPick(picked, all, wanted, ps) && LeavesOutNone(ps, |all|, wanted);
    EndIsPick(picked, all, wanted, ps, from);
    if from > 0 {
      EndLeavesOutFirst(ps, |all|, wanted, from);
    } else {
      assert ps[from..] == ps;
      assert LeavesOutFirst(ps, |all|, wanted);
    }
  }
}
