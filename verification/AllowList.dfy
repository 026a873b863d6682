/** client_mutations.go and apply_configuration.go: filtering desired mutations by the specified output resources. */
module AllowList {
  import opened Seqs
  import opened Kube
  import opened Requests

  datatype ExactResource = ExactResource(
    group: string, version: string, resource: string, namespace: string, name: string)

  datatype GeneratedResource =
    GeneratedResource(group: string, version: string, resource: string, namespace: string, generatedName: string)

  datatype ResourceList = ResourceList(
    exact: seq<ExactResource>, generated: seq<GeneratedResource>, eventingNamespaces: seq<string>)

  datatype OutputResources = OutputResources(
    configuration: ResourceList, management: ResourceList, userWorkload: ResourceList)

  datatype ClusterType = Configuration | Management | UserWorkload

  /** `sets.List(AllClusterTypes)`: the cluster types in the order of their names. */
  const ALL_CLUSTER_TYPES: seq<ClusterType> := [Configuration, Management, UserWorkload]

  lemma ClusterTypesListed()
    ensures ALL_CLUSTER_TYPES[0] == Configuration
    ensures ALL_CLUSTER_TYPES[1] == Management
    ensures ALL_CLUSTER_TYPES[2] == UserWorkload
  {
  }

  function ListFor(allowed: OutputResources, c: ClusterType): ResourceList
  {
    match c
    case Configuration => allowed.configuration
    case Management => allowed.management
    case UserWorkload => allowed.userWorkload
  }

  datatype GroupResource = GroupResource(group: string, resource: string)

  const CORE_EVENT_GR := GroupResource("", "events")
  const EVENT_GR := GroupResource("events.k8s.io", "events")

  predicate IsEvent(m: Metadata)
  {
    m.resourceType.resource == "events" && (m.resourceType.group == "" || m.resourceType.group == "events.k8s.io")
  }

  predicate MatchesExact(m: Metadata, e: ExactResource)
  {
    && m.generateName == ""
    && m.resourceType.group == e.group
    && m.resourceType.resource == e.resource
    && m.namespace == e.namespace
    && m.name == e.name
  }

  predicate MatchesGenerated(m: Metadata, g: GeneratedResource)
  {
    && m.name == ""
    && m.resourceType.group == g.group
    && m.resourceType.resource == g.resource
    && m.namespace == g.namespace
    && m.generateName == g.generatedName
  }

  /** What a list allows: events into its eventing namespaces, requests without a generated name that it lists exactly,
      requests without a name whose generated name it lists. Versions do not matter. */
  predicate Allows(l: ResourceList, m: Metadata)
  {
    || (IsEvent(m) && m.namespace in l.eventingNamespaces)
    || (exists i :: 0 <= i < |l.exact| && MatchesExact(m, l.exact[i]))
    || (exists i :: 0 <= i < |l.generated| && MatchesGenerated(m, l.generated[i]))
  }

  /** No list allows everything. */
  predicate AllowedBy(l: Option<ResourceList>, m: Metadata)
  {
    l.None? || Allows(l.value, m)
  }

  method MetadataMatchesFilter(m: Metadata, allowed: Option<ResourceList>) returns (r: bool)
    ensures r <==> AllowedBy(allowed, m)
    ensures r <==> allowed == None || Allows(allowed.value, m)
  {
    if allowed.None? {
      return true;
    }
    var l := allowed.value;
    var gr := GroupResource(m.resourceType.group, m.resourceType.resource);
    if gr == CORE_EVENT_GR || gr == EVENT_GR {
      for i := 0 to |l.eventingNamespaces|
        invariant m.namespace !in l.eventingNamespaces[..i]
      {
        if m.namespace == l.eventingNamespaces[i] {
          return true;
        }
      }
      assert l.eventingNamespaces[..|l.eventingNamespaces|] == l.eventingNamespaces;
    }
    for i := 0 to |l.exact|
      invariant forall j :: 0 <= j < i ==> !MatchesExact(m, l.exact[j])
    {
      if |m.generateName| > 0 {
        continue;
      }
      var curr := l.exact[i];
      if m.resourceType.group == curr.group && m.resourceType.resource == curr.resource &&
         m.namespace == curr.namespace && m.name == curr.name {
        assert MatchesExact(m, l.exact[i]);
        return true;
      }
    }
    for i := 0 to |l.generated|
      invariant forall j :: 0 <= j < i ==> !MatchesGenerated(m, l.generated[j])
    {
      if |m.name| > 0 {
        continue;
      }
      var curr := l.generated[i];
      if m.resourceType.group == curr.group && m.resourceType.resource == curr.resource &&
         m.namespace == curr.namespace && m.generateName == curr.generatedName {
        assert MatchesGenerated(m, l.generated[i]);
        return true;
      }
    }
    return false;
  }

  /** What one entry allows, and nothing else: an event into the namespace, in the core group or in that of events; a
      request with just this group, resource, namespace and name, and no generated name; a request with just this group,
      resource, namespace and generated name, and no name. The version does not matter. */
  lemma AllowsOneEntry(m: Metadata, e: ExactResource, g: GeneratedResource, namespace: string)
    ensures !Allows(ResourceList([], [], []), m)
    ensures Allows(ResourceList([], [], [namespace]), m) <==>
            m.namespace == namespace && m.resourceType.resource == "events"
            && m.resourceType.group in ["", "events.k8s.io"]
    ensures Allows(ResourceList([e], [], []), m) <==>
            e == ExactResource(m.resourceType.group, e.version, m.resourceType.resource, m.namespace, m.name)
            && m.generateName == ""
    ensures Allows(ResourceList([], [g], []), m) <==>
            g == GeneratedResource(
                   m.resourceType.group, g.version, m.resourceType.resource, m.namespace, m.generateName)
            && m.name == ""
  {
    var exact, generated := ResourceList([e], [], []), ResourceList([], [g], []);
    assert exact.exact[0] == e && generated.generated[0] == g;
  }

  function Keeps(l: Option<ResourceList>): Request -> bool
  {
    (x: Request) => AllowedBy(l, x.metadata)
  }

  method FilterSerializedRequests(requests: seq<Request>, allowed: Option<ResourceList>) returns (r: seq<Request>)
    ensures r == Filter(requests, Keeps(allowed))
    ensures allowed == None ==> r == requests
  {
    if allowed == None { FilterEverything(requests, Keeps(allowed)); }
    r := [];
    for i := 0 to |requests|
      invariant r == Filter(requests[..i], Keeps(allowed))
    {
      FilterStep(requests, i, Keeps(allowed));
      var matches := MetadataMatchesFilter(requests[i].metadata, allowed);
      if matches {
        r := r + [requests[i]];
      }
    }
    assert requests[..|requests|] == requests;
  }

  function NotAnEvent(): Request -> bool
  {
    (x: Request) => !IsEvent(x.metadata)
  }

  method RemoveEvents(requests: seq<Request>) returns (r: seq<Request>)
    ensures r == Filter(requests, NotAnEvent())
    ensures forall x :: x in r <==>
                        x in requests && !(x.metadata.resourceType.resource == "events"
                                           && x.metadata.resourceType.group in ["", "events.k8s.io"])
  {
    FilterIn(requests, NotAnEvent());
    r := [];
    for i := 0 to |requests|
      invariant r == Filter(requests[..i], NotAnEvent())
    {
      FilterStep(requests, i, NotAnEvent());
      var resourceType := requests[i].metadata.resourceType;
      var gr := GroupResource(resourceType.group, resourceType.resource);
      if gr == CORE_EVENT_GR || gr == EVENT_GR {
        continue;
      }
      r := r + [requests[i]];
    }
    assert requests[..|requests|] == requests;
  }

  function Combine(allowed: OutputResources): ResourceList
  {
    ResourceList(
      allowed.configuration.exact + allowed.management.exact + allowed.userWorkload.exact,
      allowed.configuration.generated + allowed.management.generated + allowed.userWorkload.generated,
      allowed.configuration.eventingNamespaces + allowed.management.eventingNamespaces +
      allowed.userWorkload.eventingNamespaces)
  }

  function Append(a: ResourceList, b: ResourceList): ResourceList
  {
    ResourceList(a.exact + b.exact, a.generated + b.generated, a.eventingNamespaces + b.eventingNamespaces)
  }

  /** Lists put together allow what one of them allows. */
  lemma AllowsAppend(a: ResourceList, b: ResourceList, m: Metadata)
    ensures Allows(Append(a, b), m) <==> Allows(a, m) || Allows(b, m)
  {
    var ab := Append(a, b);
    if i :| 0 <= i < |a.exact| && MatchesExact(m, a.exact[i]) { assert ab.exact[i] == a.exact[i]; }
    if i :| 0 <= i < |b.exact| && MatchesExact(m, b.exact[i]) { assert ab.exact[|a.exact| + i] == b.exact[i]; }
    if i :| 0 <= i < |a.generated| && MatchesGenerated(m, a.generated[i]) { assert ab.generated[i] == a.generated[i]; }
    if i :| 0 <= i < |b.generated| && MatchesGenerated(m, b.generated[i]) {
      assert ab.generated[|a.generated| + i] == b.generated[i];
    }
  }

  /** Matching distributes over combining: the combined list allows exactly what some cluster's list allows. */
  lemma CombineAllows(allowed: OutputResources, m: Metadata)
    ensures Allows(Combine(allowed), m) <==>
            Allows(allowed.configuration, m) || Allows(allowed.management, m) || Allows(allowed.userWorkload, m)
  {
    AllowsAppend(allowed.configuration, allowed.management, m);
    AllowsAppend(Append(allowed.configuration, allowed.management), allowed.userWorkload, m);
    assert Combine(allowed) == Append(Append(allowed.configuration, allowed.management), allowed.userWorkload);
  }

  /** A longer list keeps at least what a shorter one keeps, and filtering by both, in either order, is filtering by the
      shorter. */
  lemma FilterMonotone(requests: seq<Request>, a: ResourceList, b: ResourceList)
    ensures Filter(Filter(requests, Keeps(Some(Append(a, b)))), Keeps(Some(a))) == Filter(requests, Keeps(Some(a)))
    ensures Filter(Filter(requests, Keeps(Some(a))), Keeps(Some(Append(a, b)))) == Filter(requests, Keeps(Some(a)))
  {
    forall x | x in requests ensures AllowedBy(Some(a), x.metadata) ==> AllowedBy(Some(Append(a, b)), x.metadata) {
      AllowsAppend(a, b, x.metadata);
    }
    FilterTwice(requests, Keeps(Some(Append(a, b))), Keeps(Some(a)), Keeps(Some(a)));
    FilterTwice(requests, Keeps(Some(a)), Keeps(Some(Append(a, b))), Keeps(Some(a)));
  }

  /** Desired mutations of one cluster type: the tracker itself, or a filtering view of another getter. A view of a nil
      getter is not nil itself. */
  datatype Getter = Tracking(tracked: Tracked) | Filtering(delegate: Option<Getter>, list: Option<ResourceList>)

  /** What a getter's reader shows, action by action; None is the nil dereference of a view without a delegate. */
  function Shown(g: Getter): Option<Tracked>
  {
    match g
    case Tracking(t) => Some(t)
    case Filtering(None, _) => None
    case Filtering(Some(inner), l) =>
      var t := Shown(inner);
      if t.None? then None else Some(FilterTracked(t.value, l))
  }

  function FilterTracked(t: Tracked, l: Option<ResourceList>): Tracked
  {
    map a | a in t :: Filter(t[a], Keeps(l))
  }

  lemma {:induction false} FilteredActions(t: Tracked, l: Option<ResourceList>, actions: seq<string>)
    ensures RequestsForActions(FilterTracked(t, l), actions) == Filter(RequestsForActions(t, actions), Keeps(l))
  {
    if actions != [] {
      var last := actions[|actions| - 1];
      FilteredActions(t, l, actions[..|actions| - 1]);
      FilterAppend(RequestsForActions(t, actions[..|actions| - 1]), if last in t then t[last] else [], Keeps(l));
    }
  }

  /** The view's two ways to be read agree: filtering all requests lists, action by action, the filtered requests. */
  lemma FilteredListsAll(t: Tracked, l: Option<ResourceList>, all: seq<Request>)
    requires ListsAll(t, all)
    ensures ListsAll(FilterTracked(t, l), Filter(all, Keeps(l)))
  {
    var actions :| Enumerates(actions, t.Keys) && all == RequestsForActions(t, actions);
    FilteredActions(t, l, actions);
    assert FilterTracked(t, l).Keys == t.Keys;
    assert Enumerates(actions, FilterTracked(t, l).Keys);
  }

  lemma FilteredCount(t: Tracked, l: Option<ResourceList>, x: Request)
    requires Filed(t)
    ensures Filed(FilterTracked(t, l))
    ensures Count(FilterTracked(t, l), x) == if AllowedBy(l, x.metadata) then Count(t, x) else 0
  {
    forall a, r | a in t && r in Filter(t[a], Keeps(l)) ensures r.metadata.action == a { FilterIn(t[a], Keeps(l)); }
    if x.metadata.action in t {
      FilterCount(t[x.metadata.action], Keeps(l), x);
    }
  }

  /** The getters of a run, nil where absent. */
  type Mutations = map<ClusterType, Getter>

  /** `NewApplyConfigurationFromClient`: every cluster type shares the one tracker. */
  method NewApplyConfigurationFromClient(tracker: AllActionsTracker) returns (m: Mutations)
    ensures forall c: ClusterType :: c in m && m[c] == Tracking(tracker.actionToTracker)
  {
    m := map[];
    for i := 0 to |ALL_CLUSTER_TYPES|
      invariant forall j :: 0 <= j < i ==>
        ALL_CLUSTER_TYPES[j] in m && m[ALL_CLUSTER_TYPES[j]] == Tracking(tracker.actionToTracker)
    {
      m := m[ALL_CLUSTER_TYPES[i] := Tracking(tracker.actionToTracker)];
    }
    ClusterTypesListed();
    forall c: ClusterType ensures c in m && m[c] == Tracking(tracker.actionToTracker) {
      match c case Configuration => case Management => case UserWorkload =>
    }
  }

  function Nullable(m: Mutations, c: ClusterType): Option<Getter>
  {
    if c in m then Some(m[c]) else None
  }

  /** The view of one cluster type's getter, nil or not, with a list of its own, or none. */
  predicate Views(view: Getter, m: Mutations, c: ClusterType, list: Option<ResourceList>)
  {
    view == Filtering(if c in m then Some(m[c]) else None, list)
  }

  function ViewOf(m: Mutations, allowed: Option<OutputResources>, c: ClusterType): Getter
  {
    Filtering(Nullable(m, c), if allowed.None? then None else Some(ListFor(allowed.value, c)))
  }

  method FilterAllDesiredMutationsGetter(m: Mutations, allowed: Option<OutputResources>) returns (r: Mutations)
    ensures forall c: ClusterType ::
              c in r && r[c] == ViewOf(m, allowed, c)
    ensures
      && Views(r[Configuration], m, Configuration, if allowed.Some? then Some(allowed.value.configuration) else None)
      && Views(r[Management], m, Management, if allowed.Some? then Some(allowed.value.management) else None)
      && Views(r[UserWorkload], m, UserWorkload, if allowed.Some? then Some(allowed.value.userWorkload) else None)
  {
    r := map[];
    for i := 0 to |ALL_CLUSTER_TYPES|
      invariant forall j :: 0 <= j < i ==>
        var c := ALL_CLUSTER_TYPES[j];
        c in r && r[c] == ViewOf(m, allowed, c)
    {
      var c := ALL_CLUSTER_TYPES[i];
      var filter: Option<ResourceList> := None;
      if allowed.Some? {
        match c {
          case Configuration => filter := Some(allowed.value.configuration);
          case Management => filter := Some(allowed.value.management);
          case UserWorkload => filter := Some(allowed.value.userWorkload);
        }
      }
      r := r[c := Filtering(Nullable(m, c), filter)];
    }
    ClusterTypesListed();
    forall c: ClusterType
      ensures c in r && r[c] == ViewOf(m, allowed, c)
    {
      match c case Configuration => case Management => case UserWorkload =>
    }
  }

  /** Listing all requests of a getter, action by action in map iteration order. */
  method AllRequestsOf(g: Getter) returns (r: Attempt<seq<Request>>)
    ensures r.Panicked? <==> Shown(g).None?
    ensures r.Done? ==> ListsAll(Shown(g).value, r.value)
  {
    match g {
      case Filtering(delegate, l) =>
        if delegate.None? {
          return Panicked;
        }
        var inner := AllRequestsOf(delegate.value);
        if inner.Panicked? {
          return Panicked;
        }
        FilteredListsAll(Shown(delegate.value).value, l, inner.value);
        var kept := FilterSerializedRequests(inner.value, l);
        return Done(kept);
      case Tracking(t) =>
        var all := ListTracked(t);
        return Done(all);
    }
  }
}
