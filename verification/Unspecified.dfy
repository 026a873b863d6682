/** apply_configuration.go: finding and rejecting the requests that no output resource specifies. */
module Unspecified {
  import opened Seqs
  import opened Kube
  import opened Requests
  import opened AllowList

  /** Requests are filed under their actions in every tracker shown. */
  ghost predicate AllFiled(m: Mutations)
  {
    forall c :: c in m && Shown(m[c]).Some? ==> Filed(Shown(m[c]).value)
  }

  /** How often the mutations of one cluster type hold a request. */
  function CountIn(m: Mutations, c: ClusterType, x: Request): nat
  {
    if c in m && Shown(m[c]).Some? then Count(Shown(m[c]).value, x) else 0
  }

  function Total(m: Mutations, x: Request): nat
  {
    CountIn(m, Configuration, x) + CountIn(m, Management, x) + CountIn(m, UserWorkload, x)
  }

  /** Some cluster type's list allows the request. */
  ghost predicate Specified(allowed: OutputResources, x: Request)
  {
    || Allows(allowed.configuration, x.metadata)
    || Allows(allowed.management, x.metadata)
    || Allows(allowed.userWorkload, x.metadata)
  }

  /** Reading some getter dereferences nil. */
  ghost predicate Broken(m: Mutations)
  {
    exists c :: c in m && Shown(m[c]).None?
  }

  /** A listing of one cluster type's requests; a nil getter has none. */
  ghost predicate Lists(m: Mutations, c: ClusterType, xs: seq<Request>)
  {
    if c in m then Shown(m[c]).Some? && ListsAll(Shown(m[c]).value, xs) else xs == []
  }

  /** Listings of the first cluster types' requests. */
  ghost predicate ListedUpTo(m: Mutations, parts: seq<seq<Request>>)
  {
    |parts| <= 3 && forall i :: 0 <= i < |parts| ==> Lists(m, ALL_CLUSTER_TYPES[i], parts[i])
  }

  /** A listing of all cluster types' requests, in cluster type order. */
  ghost predicate Gathers(m: Mutations, all: seq<Request>)
  {
    exists parts: seq<seq<Request>> :: |parts| == 3 && ListedUpTo(m, parts) && all == Flat(parts)
  }

  lemma ListedMore(m: Mutations, parts: seq<seq<Request>>, here: seq<Request>)
    requires |parts| < 3 && ListedUpTo(m, parts) && Lists(m, ALL_CLUSTER_TYPES[|parts|], here)
    ensures ListedUpTo(m, parts + [here]) && Flat(parts + [here]) == Flat(parts) + here
  {
    hide Lists;
    assert (parts + [here])[..|parts|] == parts;
  }

  lemma ListedAll(m: Mutations, parts: seq<seq<Request>>)
    requires AllFiled(m) && |parts| == 3 && ListedUpTo(m, parts)
    ensures !Broken(m)
    ensures forall x :: multiset(Flat(parts))[x] == Total(m, x)
  {
    ClusterTypesListed();
    assert Lists(m, Configuration, parts[0]) && Lists(m, Management, parts[1]) && Lists(m, UserWorkload, parts[2]);
    forall c | c in m ensures Shown(m[c]).Some? {
      match c case Configuration => case Management => case UserWorkload =>
    }
    GatheredCount(m, parts);
  }

  /** All requests of all cluster types, in cluster type order; nil getters have none. */
  method GatherRequests(m: Mutations) returns (r: Attempt<seq<Request>>)
    requires AllFiled(m)
    ensures r.Panicked? <==> Broken(m)
    ensures r.Done? ==> Gathers(m, r.value)
    ensures r.Done? ==> forall x :: multiset(r.value)[x] == Total(m, x)
  {
    hide ListsAll, ListedUpTo, Flat, AllFiled, Total;
    var all: seq<Request> := [];
    ghost var parts: seq<seq<Request>> := [];
    NothingListed(m);
    for i := 0 to |ALL_CLUSTER_TYPES|
      invariant |parts| == i && all == Flat(parts) && ListedUpTo(m, parts)
    {
      var c := ALL_CLUSTER_TYPES[i];
      var here: seq<Request> := [];
      if c in m {
        var listed := AllRequestsOf(m[c]);
        if listed.Panicked? {
          return Panicked;
        }
        here := listed.value;
      }
      ListedMore(m, parts, here);
      all := all + here;
      parts := parts + [here];
    }
    ListedAll(m, parts);
    return Done(all);
  }

  lemma NothingListed(m: Mutations)
    ensures ListedUpTo(m, []) && Flat<Request>([]) == []
  {
  }

  lemma ListedCount(m: Mutations, c: ClusterType, xs: seq<Request>)
    requires AllFiled(m) && Lists(m, c, xs)
    ensures forall x :: multiset(xs)[x] == CountIn(m, c, x)
  {
    if c in m { AllRequestsCount(Shown(m[c]).value, xs); }
  }

  lemma GatheredCount(m: Mutations, parts: seq<seq<Request>>)
    requires AllFiled(m) && |parts| == 3
    requires Lists(m, Configuration, parts[0]) && Lists(m, Management, parts[1]) && Lists(m, UserWorkload, parts[2])
    ensures forall x :: multiset(Flat(parts))[x] == Total(m, x)
  {
    hide AllFiled, CountIn, Lists;
    ListedCount(m, Configuration, parts[0]);
    ListedCount(m, Management, parts[1]);
    ListedCount(m, UserWorkload, parts[2]);
    FlatThree(parts);
  }

  lemma FlatThree(parts: seq<seq<Request>>)
    requires |parts| == 3
    ensures Flat(parts) == parts[0] + parts[1] + parts[2]
  {
    assert parts[..2][..1] == parts[..1] && parts[..1][..0] == [];
    assert Flat(parts[..1]) == parts[0];
    assert Flat(parts[..2]) == parts[0] + parts[1];
  }

  method CombineLists(allowed: OutputResources) returns (combined: ResourceList)
    ensures combined == Combine(allowed)
  {
    combined := ResourceList([], [], []);
    combined := combined.(exact := combined.exact + allowed.configuration.exact);
    combined := combined.(exact := combined.exact + allowed.management.exact);
    combined := combined.(exact := combined.exact + allowed.userWorkload.exact);
    combined := combined.(generated := combined.generated + allowed.configuration.generated);
    combined := combined.(generated := combined.generated + allowed.management.generated);
    combined := combined.(generated := combined.generated + allowed.userWorkload.generated);
    combined := combined.(eventingNamespaces := combined.eventingNamespaces + allowed.configuration.eventingNamespaces);
    combined := combined.(eventingNamespaces := combined.eventingNamespaces + allowed.management.eventingNamespaces);
    combined := combined.(eventingNamespaces := combined.eventingNamespaces + allowed.userWorkload.eventingNamespaces);
  }

  /** The requests that the combined list does not allow. */
  function NotAllowed(allowed: OutputResources): Request -> bool
  {
    (x: Request) => !AllowedBy(Some(Combine(allowed)), x.metadata)
  }

  /** What is absent from the allowed is what is not allowed. */
  lemma DifferenceIsNotAllowed(all: seq<Request>, allowed: OutputResources)
    ensures Filter(all, AbsentFrom(Filter(all, Keeps(Some(Combine(allowed)))))) == Filter(all, NotAllowed(allowed))
  {
    hide AllowedBy, Combine;
    var kept := Filter(all, Keeps(Some(Combine(allowed))));
    FilterIn(all, Keeps(Some(Combine(allowed))));
    FilterSame(all, AbsentFrom(kept), NotAllowed(allowed));
  }

  lemma DifferenceOfFilter(all: seq<Request>, l: Option<ResourceList>, x: Request)
    ensures multiset(Filter(all, AbsentFrom(Filter(all, Keeps(l)))))[x] ==
            if AllowedBy(l, x.metadata) then 0 else multiset(all)[x]
  {
    var kept := Filter(all, Keeps(l));
    FilterIn(all, Keeps(l));
    FilterCount(all, AbsentFrom(kept), x);
  }

  /** The unspecified requests, as often as they are tracked; a nil allow list or a view of nil ends in a panic. */
  method UnspecifiedOutputResources(m: Mutations, allowed: Option<OutputResources>) returns (r: Attempt<seq<Request>>)
    requires AllFiled(m)
    ensures r.Panicked? <==> Broken(m) || allowed.None?
    ensures r.Done? ==> forall x :: multiset(r.value)[x] == if Specified(allowed.value, x) then 0 else Total(m, x)
    ensures r.Done? ==> forall x :: x in r.value <==> !Specified(allowed.value, x) && Total(m, x) > 0
    ensures r.Done? ==> exists all :: Gathers(m, all) && r.value == Filter(all, NotAllowed(allowed.value))
  {
    hide Gathers;
    var gathered := GatherRequests(m);
    if gathered.Panicked? || allowed.None? {
      return Panicked;
    }
    var all := gathered.value;
    var combined := CombineLists(allowed.value);
    var kept := FilterSerializedRequests(all, Some(combined));
    var unspecified := DifferenceOfSerializedRequests(all, kept);
    DifferenceIsNotAllowed(all, allowed.value);
    forall x ensures multiset(unspecified)[x] == if Specified(allowed.value, x) then 0 else Total(m, x) {
      CombineAllows(allowed.value, x.metadata);
      DifferenceOfFilter(all, Some(combined), x);
    }
    assert forall x :: x in unspecified <==> x in multiset(unspecified);
    return Done(unspecified);
  }

  datatype ValidationError = ConfigurationRequired | UnspecifiedProduced(count: nat)

  /** Only the validation itself tolerates nil mutations. */
  method ValidateAllDesiredMutationsGetter(m: Option<Mutations>, allowed: Option<OutputResources>)
    returns (r: Attempt<Option<ValidationError>>)
    requires m.Some? ==> AllFiled(m.value)
    ensures m.None? ==> r == Done(Some(ConfigurationRequired))
    ensures m.Some? ==> (r.Panicked? <==> Broken(m.value) || allowed.None?)
    ensures m.Some? && r.Done? ==>
              (r.value.None? <==> forall x :: Total(m.value, x) > 0 ==> Specified(allowed.value, x))
    ensures m.Some? && r.Done? && r.value.Some? ==> r.value.value.UnspecifiedProduced? && r.value.value.count > 0
  {
    if m.None? {
      return Done(Some(ConfigurationRequired));
    }
    var unspecified := UnspecifiedOutputResources(m.value, allowed);
    if unspecified.Panicked? {
      return Panicked;
    }
    if |unspecified.value| > 0 {
      assert unspecified.value[0] in unspecified.value;
      return Done(Some(UnspecifiedProduced(|unspecified.value|)));
    }
    assert forall x :: x !in unspecified.value;
    return Done(None);
  }

  /** `f` is the filtering view of `m`. */
  ghost predicate IsFilterOf(f: Mutations, m: Mutations, allowed: Option<OutputResources>)
  {
    forall c: ClusterType ::
      c in f && f[c] == Filtering(Nullable(m, c), if allowed.None? then None else Some(ListFor(allowed.value, c)))
  }

  /** The view keeps, for each cluster type, exactly what its own list allows. */
  lemma FilteredCountIn(f: Mutations, m: Mutations, allowed: OutputResources, c: ClusterType, x: Request)
    requires IsFilterOf(f, m, Some(allowed)) && AllFiled(m)
    ensures CountIn(f, c, x) == if Allows(ListFor(allowed, c), x.metadata) then CountIn(m, c, x) else 0
    ensures
      var list :=
        match c
        case Configuration => allowed.configuration
        case Management => allowed.management
        case UserWorkload => allowed.userWorkload;
      CountIn(f, c, x) == if Allows(list, x.metadata) then CountIn(m, c, x) else 0
  {
    if c in m && Shown(m[c]).Some? {
      FilteredCount(Shown(m[c]).value, Some(ListFor(allowed, c)), x);
    }
  }

  lemma FilterKeepsFiled(f: Mutations, m: Mutations, allowed: Option<OutputResources>)
    requires IsFilterOf(f, m, allowed) && AllFiled(m)
    ensures AllFiled(f)
    ensures Broken(f) <==> Broken(m) || exists c: ClusterType :: c !in m
  {
    forall c | c in f && Shown(f[c]).Some? ensures Filed(Shown(f[c]).value) {
      var l := if allowed.None? then None else Some(ListFor(allowed.value, c));
      FilteredFiled(Shown(m[c]).value, l);
    }
    if c :| c in m && Shown(m[c]).None? { assert Shown(f[c]).None?; }
    if c: ClusterType :| c !in m { assert Shown(f[c]).None?; }
  }

  lemma FilteredFiled(t: Tracked, l: Option<ResourceList>)
    requires Filed(t)
    ensures Filed(FilterTracked(t, l))
  {
    forall a, r | a in t && r in Filter(t[a], Keeps(l)) ensures r.metadata.action == a { FilterIn(t[a], Keeps(l)); }
  }

  /** Post-filter validation never fires: what the view shows is specified. */
  lemma FilteredIsSpecified(f: Mutations, m: Mutations, allowed: OutputResources, x: Request)
    requires IsFilterOf(f, m, Some(allowed)) && AllFiled(m)
    requires Total(f, x) > 0
    ensures Specified(allowed, x)
  {
    FilteredCountIn(f, m, allowed, Configuration, x);
    FilteredCountIn(f, m, allowed, Management, x);
    FilteredCountIn(f, m, allowed, UserWorkload, x);
  }

  /** Nothing produced is lost: of a shared tracker, a request is kept, as often as tracked, for exactly the cluster
      types whose own list allows it, and is unspecified exactly when there is none. */
  lemma NothingProducedIsLost(
    t: Tracked, m: Mutations, f: Mutations, allowed: OutputResources, unspecified: seq<Request>, x: Request)
    requires Filed(t) && (forall c: ClusterType :: c in m && m[c] == Tracking(t))
    requires IsFilterOf(f, m, Some(allowed))
    requires forall y :: y in unspecified <==> !Specified(allowed, y) && Total(m, y) > 0
    requires Count(t, x) > 0
    ensures CountIn(f, Configuration, x) == if Allows(allowed.configuration, x.metadata) then Count(t, x) else 0
    ensures CountIn(f, Management, x) == if Allows(allowed.management, x.metadata) then Count(t, x) else 0
    ensures CountIn(f, UserWorkload, x) == if Allows(allowed.userWorkload, x.metadata) then Count(t, x) else 0
    ensures x in unspecified <==>
            CountIn(f, Configuration, x) == 0 && CountIn(f, Management, x) == 0 && CountIn(f, UserWorkload, x) == 0
  {
    hide Allows, Count;
    assert CountIn(m, Configuration, x) == CountIn(m, Management, x) == CountIn(m, UserWorkload, x) == Count(t, x);
    FilteredCountIn(f, m, allowed, Configuration, x);
    FilteredCountIn(f, m, allowed, Management, x);
    FilteredCountIn(f, m, allowed, UserWorkload, x);
  }
}
