/** Mutation requests and their tracker, as package manifestclient of library-go defines them. */
module Requests {
  import opened Seqs
  import opened GoStrings
  import opened Kube

  /** `ActionMetadata`: what a request is looked up by. */
  datatype Metadata = Metadata(
    action: string, resourceType: GVR, namespace: string, name: string, generateName: string,
    patchType: string, fieldManager: string, controllerInstanceName: string)

  datatype Request = Request(metadata: Metadata, kindType: GVK, options: string, body: string)

  /** The fields in the order in which `CompareSerializedRequest` looks at them. */
  function Fields(r: Request): seq<string>
  {
    var m := r.metadata;
    [m.action, m.patchType, m.fieldManager, m.controllerInstanceName,
     m.resourceType.group, m.resourceType.version, m.resourceType.resource,
     r.kindType.group, r.kindType.version, r.kindType.kind,
     m.namespace, m.name, m.generateName, r.body, r.options]
  }

  /** The first difference decides. */
  function CompareFields(a: seq<string>, b: seq<string>): int
    requires |a| == |b|
  {
    if a == [] then 0
    else if Compare(a[0], b[0]) != 0 then Compare(a[0], b[0])
    else CompareFields(a[1..], b[1..])
  }

  function CompareSerializedRequest(lhs: Option<Request>, rhs: Option<Request>): int
  {
    match (lhs, rhs)
    case (None, None) => 0
    case (None, Some(_)) => 1
    case (Some(_), None) => -1
    case (Some(l), Some(r)) => CompareFields(Fields(l), Fields(r))
  }

  predicate Equivalent(lhs: Request, rhs: Request)
  {
    CompareSerializedRequest(Some(lhs), Some(rhs)) == 0
  }

  lemma {:induction false} CompareFieldsZero(a: seq<string>, b: seq<string>)
    requires |a| == |b|
    ensures CompareFields(a, b) == 0 <==> a == b
  {
    if a != [] {
      CompareZero(a[0], b[0]);
      CompareFieldsZero(a[1..], b[1..]);
      assert a == [a[0]] + a[1..] && b == [b[0]] + b[1..];
    }
  }

  /** Equivalence of requests is equality: no field is left out of the comparison. */
  lemma EquivalentIsEqual(lhs: Request, rhs: Request)
    ensures Equivalent(lhs, rhs) <==> lhs == rhs
  {
    var a, b := Fields(lhs), Fields(rhs);
    CompareFieldsZero(a, b);
    if a == b {
      assert a[0] == b[0] && a[1] == b[1] && a[2] == b[2] && a[3] == b[3] && a[4] == b[4];
      assert a[5] == b[5] && a[6] == b[6] && a[7] == b[7] && a[8] == b[8] && a[9] == b[9];
      assert a[10] == b[10] && a[11] == b[11] && a[12] == b[12] && a[13] == b[13] && a[14] == b[14];
    }
  }

  function AbsentFrom(rhs: seq<Request>): Request -> bool
  {
    (x: Request) => x !in rhs
  }

  /** The elements of `lhs` without an equivalent in `rhs`, in order. */
  method DifferenceOfSerializedRequests(lhs: seq<Request>, rhs: seq<Request>) returns (r: seq<Request>)
    ensures r == Filter(lhs, AbsentFrom(rhs))
  {
    r := [];
    for i := 0 to |lhs|
      invariant r == Filter(lhs[..i], AbsentFrom(rhs))
    {
      FilterStep(lhs, i, AbsentFrom(rhs));
      var found := false;
      for j := 0 to |rhs|
        invariant !found && lhs[i] !in rhs[..j]
      {
        EquivalentIsEqual(lhs[i], rhs[j]);
        if Equivalent(lhs[i], rhs[j]) {
          found := true;
          break;
        }
      }
      assert rhs[..|rhs|] == rhs;
      if !found {
        r := r + [lhs[i]];
      }
    }
    assert lhs[..|lhs|] == lhs;
  }

  /** Equivalent exactly when both differences are empty, and then they are returned as nil. */
  method AreAllSerializedRequestsEquivalentWithReasons(lhs: seq<Request>, rhs: seq<Request>)
    returns (equivalent: bool, missingInRhs: seq<Request>, missingInLhs: seq<Request>)
    ensures equivalent <==> forall x :: x in lhs <==> x in rhs
    ensures missingInRhs == Filter(lhs, AbsentFrom(rhs))
    ensures missingInLhs == Filter(rhs, AbsentFrom(lhs))
  {
    missingInRhs := DifferenceOfSerializedRequests(lhs, rhs);
    missingInLhs := DifferenceOfSerializedRequests(rhs, lhs);
    FilterIn(lhs, AbsentFrom(rhs));
    FilterIn(rhs, AbsentFrom(lhs));
    equivalent := |missingInRhs| == 0 && |missingInLhs| == 0;
    assert !equivalent ==> (|missingInRhs| > 0 ==> missingInRhs[0] in missingInRhs)
                           && (|missingInLhs| > 0 ==> missingInLhs[0] in missingInLhs);
  }

  function OfMetadata(m: Metadata): Request -> bool
  {
    (x: Request) => x.metadata == m
  }

  method RequestsForResource(requests: seq<Request>, m: Metadata) returns (r: seq<Request>)
    ensures r == Filter(requests, OfMetadata(m))
  {
    r := [];
    for i := 0 to |requests|
      invariant r == Filter(requests[..i], OfMetadata(m))
    {
      FilterStep(requests, i, OfMetadata(m));
      if requests[i].metadata == m {
        r := r + [requests[i]];
      }
    }
    assert requests[..|requests|] == requests;
  }

  /** A computation that may panic. */
  datatype Attempt<+T> = Done(value: T) | Panicked

  /** The requests of a tracker, by action. */
  type Tracked = map<string, seq<Request>>

  /** Every request is filed under its own action. */
  predicate Filed(t: Tracked)
  {
    forall a, r :: a in t && r in t[a] ==> r.metadata.action == a
  }

  /** How often a tracker holds a request. */
  function Count(t: Tracked, x: Request): nat
  {
    if x.metadata.action in t then multiset(t[x.metadata.action])[x] else 0
  }

  function RequestsForActions(t: Tracked, actions: seq<string>): seq<Request>
  {
    if actions == [] then []
    else
      var last := actions[|actions| - 1];
      RequestsForActions(t, actions[..|actions| - 1]) + if last in t then t[last] else []
  }

  /** `all` lists the tracker's requests action by action, in some order of the actions. */
  ghost predicate ListsAll(t: Tracked, all: seq<Request>)
  {
    exists actions :: Enumerates(actions, t.Keys) && all == RequestsForActions(t, actions)
  }

  lemma {:induction false} RequestsForActionsCount(t: Tracked, actions: seq<string>, x: Request)
    requires Filed(t) && Distinct(actions)
    ensures multiset(RequestsForActions(t, actions))[x] == if x.metadata.action in actions then Count(t, x) else 0
  {
    if actions != [] {
      var init, last := actions[..|actions| - 1], actions[|actions| - 1];
      assert actions == init + [last];
      RequestsForActionsCount(t, init, x);
      if last in t && x.metadata.action != last {
        assert x !in t[last];
      }
    }
  }

  /** Whatever order the actions are iterated in, every tracked request is listed as often as it was added. */
  lemma AllRequestsCount(t: Tracked, all: seq<Request>)
    requires Filed(t) && ListsAll(t, all)
    ensures forall x :: multiset(all)[x] == Count(t, x)
    ensures forall x :: x in all <==> Count(t, x) > 0
  {
    var actions :| Enumerates(actions, t.Keys) && all == RequestsForActions(t, actions);
    forall x ensures multiset(all)[x] == Count(t, x) { RequestsForActionsCount(t, actions, x); }
    assert forall x :: x in all <==> x in multiset(all);
  }

  /** One request more, filed last under its action. */
  function File(t: Tracked, x: Request): Tracked
  {
    var action := x.metadata.action;
    t[action := (if action in t then t[action] else []) + [x]]
  }

  /** The requests filed one after the other. */
  function Track(t: Tracked, xs: seq<Request>): Tracked
  {
    if xs == [] then t else File(Track(t, xs[..|xs| - 1]), xs[|xs| - 1])
  }

  lemma {:induction false} TrackAppend(t: Tracked, a: seq<Request>, b: seq<Request>)
    ensures Track(t, a + b) == Track(Track(t, a), b)
  {
    if b == [] {
      assert a + b == a;
    } else {
      assert (a + b)[..|a + b| - 1] == a + b[..|b| - 1];
      TrackAppend(t, a, b[..|b| - 1]);
    }
  }

  function OfAction(action: string): Request -> bool
  {
    (x: Request) => x.metadata.action == action
  }

  /** A fresh tracker holds, under each action, the requests of the action in order. */
  lemma {:induction false} TrackAt(xs: seq<Request>, action: string)
    ensures action in Track(map[], xs) <==> Filter(xs, OfAction(action)) != []
    ensures action in Track(map[], xs) ==> Track(map[], xs)[action] == Filter(xs, OfAction(action))
  {
    if xs != [] { TrackAt(xs[..|xs| - 1], action); }
  }

  /** Filing keeps every request under its own action, and counts each as often as it is filed. */
  lemma {:induction false} TrackCounts(t: Tracked, xs: seq<Request>)
    requires Filed(t)
    ensures Filed(Track(t, xs))
    ensures forall x :: Count(Track(t, xs), x) == Count(t, x) + multiset(xs)[x]
  {
    if xs != [] {
      var init, last := xs[..|xs| - 1], xs[|xs| - 1];
      TrackCounts(t, init);
      assert xs == init + [last];
      FileCounts(Track(t, init), last);
    }
  }

  lemma FileCounts(t: Tracked, x: Request)
    requires Filed(t)
    ensures Filed(File(t, x))
    ensures forall y :: Count(File(t, x), y) == Count(t, y) + if y == x then 1 else 0
  {
  }

  class AllActionsTracker {
    var actionToTracker: Tracked

    ghost predicate Valid()
      reads this
    {
      Filed(actionToTracker)
    }

    constructor ()
      ensures Valid()
      ensures actionToTracker == map[]
    {
      actionToTracker := map[];
    }

    /** One request more, filed last under its action; nothing else changes, per action or in all. */
    method AddRequest(request: Request)
      requires Valid()
      modifies this
      ensures Valid()
      ensures actionToTracker == File(old(actionToTracker), request)
      ensures forall x :: Count(actionToTracker, x) == Count(old(actionToTracker), x) + if x == request then 1 else 0
    {
      FileCounts(actionToTracker, request);
      var action := request.metadata.action;
      if action !in actionToTracker {
        actionToTracker := actionToTracker[action := []];
      }
      actionToTracker := actionToTracker[action := actionToTracker[action] + [request]];
    }

    /** An action without requests has a nil tracker, and reading that panics. */
    method RequestsForAction(action: string) returns (r: Attempt<seq<Request>>)
      requires Valid()
      ensures r.Panicked? <==> action !in actionToTracker
      ensures r.Done? ==> r.value == actionToTracker[action]
      ensures r.Done? ==>
                forall x: Request :: multiset(r.value)[x] ==
                  if x.metadata.action == action then Count(actionToTracker, x) else 0
    {
      if action !in actionToTracker {
        return Panicked;
      }
      forall x: Request | x.metadata.action != action ensures x !in actionToTracker[action] {}
      return Done(actionToTracker[action]);
    }

    method AllRequests() returns (r: seq<Request>)
      ensures ListsAll(actionToTracker, r)
    {
      r := ListTracked(actionToTracker);
    }
  }

  /** Action by action, in map iteration order. */
  method ListTracked(t: Tracked) returns (r: seq<Request>)
    ensures ListsAll(t, r)
  {
    r := [];
    ghost var actions: seq<string> := [];
    var todo := t.Keys;
    while todo != {}
      invariant todo <= t.Keys
      invariant Distinct(actions)
      invariant forall a :: a in actions <==> a in t && a !in todo
      invariant r == RequestsForActions(t, actions)
    {
      var action :| action in todo;
      todo := todo - {action};
      assert (actions + [action])[..|actions|] == actions;
      actions := actions + [action];
      r := r + t[action];
    }
    assert Enumerates(actions, t.Keys);
  }
}
