/** The main results about pruning: what the pruned store and the pruned directory are good for. */
module PruneAgain {
  import opened Seqs
  import opened Dedup
  import opened Kube
  import opened GoStrings
  import opened Packing
  import opened MustGatherDir
  import opened ResourceDiff
  import opened Prune
  import opened MustGatherClient
  import opened NamespaceOrder
  import opened RoundTrip
  import opened Sufficiency
  import opened Replay

  /** Every type a resource list mentions names directory entries. */
  predicate PlainRequests(rl: ResourceList)
  {
    && (forall id :: id in rl.exact ==> PlainType(id.resourceType))
    && (forall sel :: sel in rl.labelSelected ==> PlainType(sel.resourceType))
    && (forall ref :: ref in rl.references ==>
          PlainType(ref.referring.resourceType) && (ref.implicit.Some? ==> PlainType(ref.implicit.value.resourceType)))
  }

  lemma PlainReads(c: Client, eval: PathEval, rl: ResourceList)
    requires PlainRequests(rl)
    ensures forall q :: q in Queries(c, eval, rl) ==> PlainType(TypeOfQuery(q))
  {
    hide PlainType, ReadsOf;
    forall q | q in Queries(c, eval, rl) ensures PlainType(TypeOfQuery(q)) {
      if q in GetQueries(rl.exact) {
        var i :| 0 <= i < |rl.exact| && GetQueries(rl.exact)[i] == q;
        assert rl.exact[i] in rl.exact;
      } else if q in ListQueries(rl.labelSelected) {
        var i :| 0 <= i < |rl.labelSelected| && ListQueries(rl.labelSelected)[i] == q;
        assert rl.labelSelected[i] in rl.labelSelected;
      } else {
        ReferenceQueriesIn(c, eval, rl.references, q);
        var i :| 0 <= i < |rl.references| && q in ReadsOf(c, eval, rl.references[i]);
        assert rl.references[i] in rl.references;
        ReadTypes(c, eval, rl.references[i], q);
      }
    }
  }

  /** A reference reads its referring type and the type of its targets, nothing else. */
  lemma ReadTypes(c: Client, eval: PathEval, ref: ResourceReference, q: Query)
    requires q in ReadsOf(c, eval, ref)
    ensures TypeOfQuery(q) == ref.referring.resourceType
            || (ref.implicit.Some? && TypeOfQuery(q) == ref.implicit.value.resourceType)
  {
  }

  lemma SelectionInWorld(
    d: Discovery, c: Client, matches: LabelMatch, world: set<ObjectResource>, eval: PathEval, rl: ResourceList)
    requires Coherent(d, world) && Truthful(c, matches, world, Queries(c, eval, rl)) && Errors(c, eval, rl) == []
    ensures TruthfulRun(d, c, matches, world, Queries(c, eval, rl))
    ensures forall r :: r in Selection(c, eval, rl) ==> r in world
    ensures DistinctKeys(Selection(c, eval, rl), ID)
  {
    hide ID;
    NoErrorsExactly(c, eval, rl);
    OfferedInWorld(d, c, matches, world, Queries(c, eval, rl));
    FirstOccurrencesSet(OfferAll(c, Queries(c, eval, rl)), ID);
  }

  lemma SelectionPackable(d: Discovery, world: set<ObjectResource>, selected: seq<ObjectResource>)
    requires Coherent(d, world) && (forall r :: r in selected ==> r in world) && OneVersionPerKind(selected)
    ensures Packable(d, selected)
  {
    forall a, b | a in selected && b in selected && SameGroupResource(a.resourceType, b.resourceType)
      ensures a.resourceType.version == b.resourceType.version
    {
      assert a in world && b in world;
    }
  }

  /** A second truthful client of a store between the selection and the whole cluster selects the same resources. */
  lemma SandwichedStoreIsSufficient(
    d: Discovery, c: Client, c': Client, matches: LabelMatch, world: set<ObjectResource>, store: set<ObjectResource>,
    eval: PathEval, rl: ResourceList)
    requires Coherent(d, world) && Truthful(c, matches, world, Queries(c, eval, rl)) && Errors(c, eval, rl) == []
    requires store <= world && Truthful(c', matches, store, Queries(c, eval, rl))
    requires forall r :: r in Selection(c, eval, rl) ==> r in store
    requires forall q :: q in Queries(c, eval, rl) ==> QueryErrors(c', q) == []
    ensures Errors(c', eval, rl) == []
    ensures forall r :: r in Selection(c', eval, rl) <==> r in Selection(c, eval, rl)
  {
    hide ID, Offer, Coherent, Truthful, Queries;
    var qs := Queries(c, eval, rl);
    SelectionInWorld(d, c, matches, world, eval, rl);
    SubworldCoherent(d, world, store);
    NoErrorsExactly(c, eval, rl);
    forall q | q in qs ensures forall r :: r in Offer(c', q) <==> r in Offer(c, q) {
      TruthfulAt(c', matches, store, qs, q);
      SameOffer(d, c, c', matches, world, store, qs, q);
    }
    assert AllSucceed(c', qs);
    SameReads(c, c', eval, rl);
    NoErrorsExactly(c', eval, rl);
    OfferedInWorld(d, c, matches, world, qs);
    SameOffersSameSelection(d, c, c', world, qs);
  }

  lemma SubworldCoherent(d: Discovery, world: set<ObjectResource>, store: set<ObjectResource>)
    requires Coherent(d, world) && store <= world
    ensures Coherent(d, store)
  {
    forall r | r in store ensures r in world {}
  }

  lemma SameOffer(
    d: Discovery, c: Client, c': Client, matches: LabelMatch, world: set<ObjectResource>, store: set<ObjectResource>,
    qs: seq<Query>, q: Query)
    requires TruthfulRun(d, c, matches, world, qs) && Coherent(d, store) && TruthfulRead(c', matches, store, q)
    requires store <= world && (forall r :: r in FirstOccurrences(OfferAll(c, qs), ID) ==> r in store)
    requires q in qs && QueryErrors(c', q) == []
    ensures forall r :: r in Offer(c', q) <==> r in Offer(c, q)
  {
    hide ID;
    TruthfulOffer(d, c, matches, world, q);
    TruthfulOffer(d, c', matches, store, q);
    forall r | r in Offer(c, q) ensures r in store { SelectedAgain(d, c, matches, world, qs, q, r); }
  }

  lemma SameGet(c: Client, c': Client, id: ExactResourceID)
    requires forall r :: r in Offer(c', GetQuery(id)) <==> r in Offer(c, GetQuery(id))
    requires QueryErrors(c', GetQuery(id)) == [] && QueryErrors(c, GetQuery(id)) == []
    ensures c'.get(id) == c.get(id)
  {
    assert c.get(id).Got? ==> Wrap(id.resourceType, c.get(id).value) in Offer(c, GetQuery(id));
    assert c'.get(id).Got? ==> Wrap(id.resourceType, c'.get(id).value) in Offer(c', GetQuery(id));
  }

  lemma SameReads(c: Client, c': Client, eval: PathEval, rl: ResourceList)
    requires forall q :: q in Queries(c, eval, rl) ==> forall r :: r in Offer(c', q) <==> r in Offer(c, q)
    requires AllSucceed(c, Queries(c, eval, rl)) && AllSucceed(c', Queries(c, eval, rl))
    ensures Queries(c', eval, rl) == Queries(c, eval, rl)
    ensures Untroubled(c, eval, rl) ==> Untroubled(c', eval, rl)
  {
    hide Offer;
    forall ref | ref in rl.references ensures c'.get(ref.referring) == c.get(ref.referring) {
      var i :| 0 <= i < |rl.references| && rl.references[i] == ref;
      assert GetQuery(ref.referring) in ReadsOf(c, eval, rl.references[i]);
      ReferenceQueriesIn(c, eval, rl.references, GetQuery(ref.referring));
      SameGet(c, c', ref.referring);
    }
    ReferenceQueriesReplay(c, c', eval, rl.references);
  }

  lemma SameOffersSameSelection(d: Discovery, c: Client, c': Client, world: set<ObjectResource>, qs: seq<Query>)
    requires forall q :: q in qs ==> forall r :: r in Offer(c', q) <==> r in Offer(c, q)
    requires Coherent(d, world) && forall r :: r in OfferAll(c, qs) ==> r in world
    ensures forall r :: r in FirstOccurrences(OfferAll(c', qs), ID) <==> r in FirstOccurrences(OfferAll(c, qs), ID)
  {
    hide Offer;
    var a, b := OfferAll(c, qs), OfferAll(c', qs);
    OfferAllIn(c, qs);
    OfferAllIn(c', qs);
    forall i | 0 <= i < |qs| ensures qs[i] in qs {}
    assert forall r :: r in a <==> r in b;
    FirstInWorld(d, world, a);
    FirstInWorld(d, world, b);
  }

  /** Where IDs identify, deduplication drops no resource, only repetitions. */
  lemma FirstInWorld(d: Discovery, world: set<ObjectResource>, xs: seq<ObjectResource>)
    requires Coherent(d, world) && forall r :: r in xs ==> r in world
    ensures forall r :: r in FirstOccurrences(xs, ID) <==> r in xs
  {
    var kept := FirstOccurrences(xs, ID);
    FirstOccurrencesSet(xs, ID);
    forall r | r in xs ensures r in kept {
      assert ID(r) in Keys(xs, ID);
      var u :| u in kept && ID(u) == ID(r);
      WorldIds(d, world, u, r);
    }
  }

  /** The directory that pruning writes, as the packer names its files. */
  lemma WrittenHolds(d: Discovery, world: set<ObjectResource>, selected: seq<ObjectResource>, out: seq<PackedResource>)
    returns (ks: seq<Key>)
    requires Coherent(d, world) && (forall r :: r in selected ==> r in world) && DistinctKeys(selected, ID)
    requires OneVersionPerKind(selected) && IsPacking(selected, out)
    ensures Holds(d, world, selected, WriteAll(map[], out), ks)
  {
    hide ID, HoldsPacked, PackedFor, Coherent;
    SelectionPackable(d, world, selected);
    ks :| PacksInOrder(selected, out, ks);
    WrittenFiles(d, selected, out, ks);
  }

  /** The directory written from `out` is what pruning the truthful client for `rl` writes. */
  ghost predicate PrunedFrom(
    d: Discovery, c: Client, matches: LabelMatch, world: set<ObjectResource>, eval: PathEval, rl: ResourceList,
    out: seq<PackedResource>)
  {
    && Coherent(d, world) && Truthful(c, matches, world, Queries(c, eval, rl)) && Errors(c, eval, rl) == []
    && PlainRequests(rl)
    && OneVersionPerKind(Selection(c, eval, rl)) && IsPacking(Selection(c, eval, rl), out)
  }

  /** The client of the pruned directory. Its discovery `d'` is its own: pruning writes no discovery files. */
  ghost function PrunedClient(d': Discovery, out: seq<PackedResource>, matches: LabelMatch): Client
  {
    DirectoryClient(d', WriteAll(map[], out), matches)
  }

  /** The discovery of the pruned directory serves every listing of the resource list. */
  predicate DiscoveryServes(d': Discovery, selected: seq<ObjectResource>, rl: ResourceList)
  {
    forall sel :: sel in rl.labelSelected ==> ServesListing(d', selected, sel)
  }

  predicate Served(d': Discovery, selected: seq<ObjectResource>, q: Query)
  {
    q.ListQuery? ==> ServesListing(d', selected, q.sel)
  }

  /** The listings of a run are those of its label selections. */
  lemma ListingsRead(c: Client, eval: PathEval, rl: ResourceList, sel: LabelSelected)
    ensures ListQuery(sel) in Queries(c, eval, rl) <==> sel in rl.labelSelected
  {
    var q := ListQuery(sel);
    if q in Queries(c, eval, rl) {
      ReferenceQueriesIn(c, eval, rl.references, q);
      assert q !in GetQueries(rl.exact) && q !in ReferenceQueries(c, eval, rl.references);
      var i :| 0 <= i < |ListQueries(rl.labelSelected)| && ListQueries(rl.labelSelected)[i] == q;
      assert rl.labelSelected[i] == sel;
    }
    if sel in rl.labelSelected {
      var i :| 0 <= i < |rl.labelSelected| && rl.labelSelected[i] == sel;
      assert ListQueries(rl.labelSelected)[i] == q;
    }
  }

  lemma ReadIsReplayed(
    d: Discovery, d': Discovery, c: Client, matches: LabelMatch, world: set<ObjectResource>,
    selected: seq<ObjectResource>, files: Files, ks: seq<Key>, q: Query)
    returns (namespaces: seq<string>)
    requires Holds(d, world, selected, files, ks) && PlainType(TypeOfQuery(q)) && Served(d', selected, q)
    requires TruthfulRead(c, matches, world, q) && QueryErrors(c, q) == []
    ensures Replays(DirectoryClient(d', files, matches), matches, Kept(selected), q, namespaces)
  {
    hide Holds, Replays, PlainType, DirectoryClient, ServesListing;
    match q
    case GetQuery(id) =>
      GetIsReplayed(d, d', c, matches, world, selected, files, ks, id);
      namespaces := [id.namespace];
    case ListQuery(sel) =>
      if sel.resourceType == CORE_NAMESPACES {
        NamespaceListIsReplayed(d, d', c, matches, world, selected, files, ks, sel);
        namespaces := [""];
      } else {
        ListIsReplayed(d, d', c, matches, world, selected, files, ks, sel);
        namespaces := ListedNamespaces(files, sel.namespace);
      }
  }

  /** A read by name for a core Namespace finds nothing, and a listing of them is empty; neither fails. */
  lemma NamespacesAreLost(
    d: Discovery, d': Discovery, world: set<ObjectResource>, selected: seq<ObjectResource>, files: Files, ks: seq<Key>,
    matches: LabelMatch, q: Query)
    requires Holds(d, world, selected, files, ks) && PlainType(TypeOfQuery(q))
    ensures forall r :: r in Offer(DirectoryClient(d', files, matches), q) ==> r.resourceType != CORE_NAMESPACES
    ensures q.GetQuery? && TypeOfQuery(q) == CORE_NAMESPACES && ValidGet(q.id) ==> Get(files, q.id) == NotFound
    ensures q.ListQuery? && TypeOfQuery(q) == CORE_NAMESPACES && ValidSegment(q.sel.namespace) ==>
              List(d', files, matches, q.sel) == Got([])
  {
    hide HoldsPacked, Packable, Get, ID;
    match q
    case GetQuery(id) =>
      if id.resourceType == CORE_NAMESPACES {
        if ValidGet(id) { GetFindsNothing(d, world, selected, files, ks, id); }
        NeverInvalid(files, id);
      }
    case ListQuery(sel) =>
      if sel.resourceType == CORE_NAMESPACES {
        NoNamespaceFiles(d, selected, files, ks, SortedList(Children(files, ["namespaces"])));
      }
  }

  ghost function Stored(selected: seq<ObjectResource>): set<ObjectResource>
  {
    set r | r in selected
  }

  /** A replayed read tells the truth about what is kept. */
  lemma ReplayedIsTruthful(
    d': Discovery, c: Client, matches: LabelMatch, world: set<ObjectResource>, kept: seq<ObjectResource>, files: Files,
    q: Query, namespaces: seq<string>)
    requires Stored(kept) <= world && DistinctKeys(kept, ID)
    requires TruthfulRead(c, matches, world, q) && QueryErrors(c, q) == []
    requires Replays(DirectoryClient(d', files, matches), matches, kept, q, namespaces)
    ensures TruthfulRead(DirectoryClient(d', files, matches), matches, Stored(kept), q)
    ensures QueryErrors(DirectoryClient(d', files, matches), q) == []
  {
    hide ID, List, Get, Filter, ListedNamespaces, StrictlyAscending;
    var c' := DirectoryClient(d', files, matches);
    var matching := Filter(kept, Matching(matches, q));
    FilterIn(kept, Matching(matches, q));
    ByNamespaceIn(matching, namespaces);
    assert forall r :: r in Offer(c', q) <==> r in Stored(kept) && Matching(matches, q)(r);
    match q
    case GetQuery(id) =>
      NeverInvalid(files, id);
      assert c'.get(id).Got? ==> Wrap(id.resourceType, c'.get(id).value) in Offer(c', q);
    case ListQuery(sel) =>
      NeverNotFound(d', files, matches, sel);
      ListedDistinctly(kept, Matching(matches, q), namespaces);
  }

  lemma NeverInvalid(files: Files, id: ExactResourceID)
    ensures !Get(files, id).Failed? ==> ValidGet(id)
  {
  }

  lemma NeverNotFound(d': Discovery, files: Files, matches: LabelMatch, sel: LabelSelected)
    ensures !List(d', files, matches, sel).NotFound?
  {
  }

  lemma ListedDistinctly(kept: seq<ObjectResource>, m: ObjectResource -> bool, namespaces: seq<string>)
    requires DistinctKeys(kept, ID) && StrictlyAscending(namespaces)
    ensures
      var rs := ByNamespace(Filter(kept, m), namespaces);
      Distinct(rs) && NamespaceSorted(rs)
  {
    hide ID;
    var rs := ByNamespace(Filter(kept, m), namespaces);
    FilterDistinctKeys(kept, m, ID);
    ListingKeepsKeysDistinct(Filter(kept, m), namespaces);
    ListingIsSorted(Filter(kept, m), namespaces);
    forall i, j | 0 <= i < j < |rs| ensures rs[i] != rs[j] { assert ID(rs[i]) != ID(rs[j]); }
  }

  /** A read of the first run that the discovery serves is answered, truthfully about what is kept: it offers what it
      offered before, Namespaces aside. */
  lemma ServedReadAnswers(
    d: Discovery, d': Discovery, c: Client, matches: LabelMatch, world: set<ObjectResource>, eval: PathEval,
    rl: ResourceList, out: seq<PackedResource>, q: Query)
    requires PrunedFrom(d, c, matches, world, eval, rl, out)
    requires q in Queries(c, eval, rl) && Served(d', Selection(c, eval, rl), q)
    ensures
      var pruned, kept := PrunedClient(d', out, matches), Kept(Selection(c, eval, rl));
      && QueryErrors(pruned, q) == [] && QueryErrors(c, q) == []
      && TruthfulRead(pruned, matches, Stored(kept), q)
      && (forall r :: r in Offer(pruned, q) <==> r in Offer(c, q) && r.resourceType != CORE_NAMESPACES)
      && (exists namespaces :: Replays(pruned, matches, kept, q, namespaces))
  {
    hide Holds, Coherent, Truthful, TruthfulRead, Selection, Queries, ID, DirectoryClient, PlainType, IsPacking,
      Errors, Replays, Offer, Served, Matching, OneVersionPerKind, PlainRequests;
    var files := WriteAll(map[], out);
    var selected, qs := Selection(c, eval, rl), Queries(c, eval, rl);
    var kept := Kept(selected);
    SelectionInWorld(d, c, matches, world, eval, rl);
    var ks := WrittenHolds(d, world, selected, out);
    PlainReads(c, eval, rl);
    NoErrorsExactly(c, eval, rl);
    TruthfulAt(c, matches, world, qs, q);
    var namespaces := ReadIsReplayed(d, d', c, matches, world, selected, files, ks, q);
    FilterDistinctKeys(selected, NotANamespace(), ID);
    FilterIn(selected, NotANamespace());
    ReplayedIsTruthful(d', c, matches, world, kept, files, q, namespaces);
    SubworldCoherent(d, world, Stored(kept));
    TruthfulOffer(d, c, matches, world, q);
    TruthfulOffer(d, PrunedClient(d', out, matches), matches, Stored(kept), q);
    forall r | r in Offer(c, q) ensures r in selected { SelectedForList(d, c, matches, world, eval, rl, q, r); }
  }

  /** A read that the discovery does not serve fails. */
  lemma UnservedReadFails(
    d: Discovery, d': Discovery, c: Client, matches: LabelMatch, world: set<ObjectResource>, eval: PathEval,
    rl: ResourceList, out: seq<PackedResource>, q: Query)
    requires PrunedFrom(d, c, matches, world, eval, rl, out)
    requires q in Queries(c, eval, rl) && !Served(d', Selection(c, eval, rl), q)
    ensures QueryErrors(PrunedClient(d', out, matches), q) != []
  {
    hide Holds, Coherent, Truthful, Selection, Queries, ID, PlainType, IsPacking, Errors, List, ServesListing,
      OneVersionPerKind, PlainRequests;
    var selected, qs := Selection(c, eval, rl), Queries(c, eval, rl);
    SelectionInWorld(d, c, matches, world, eval, rl);
    var ks := WrittenHolds(d, world, selected, out);
    PlainReads(c, eval, rl);
    NoErrorsExactly(c, eval, rl);
    TruthfulAt(c, matches, world, qs, q);
    assert TruthfulList(c, matches, world, q.sel);
    ListFails(d, d', world, selected, WriteAll(map[], out), ks, matches, q.sel);
  }

  lemma SelectedForList(
    d: Discovery, c: Client, matches: LabelMatch, world: set<ObjectResource>, eval: PathEval, rl: ResourceList,
    q: Query, r: ObjectResource)
    requires TruthfulRun(d, c, matches, world, Queries(c, eval, rl))
    requires q in Queries(c, eval, rl) && r in Offer(c, q)
    ensures r in Selection(c, eval, rl)
  {
    SelectedAgain(d, c, matches, world, Queries(c, eval, rl), q, r);
  }

  /** Where its discovery serves the listings, the pruned directory is itself a truthful client, of just the selection
      without Namespaces: it can stand in for the cluster in every statement about truthful clients. */
  lemma PrunedDirectoryIsTruthful(
    d: Discovery, d': Discovery, c: Client, matches: LabelMatch, world: set<ObjectResource>, eval: PathEval,
    rl: ResourceList, out: seq<PackedResource>)
    requires PrunedFrom(d, c, matches, world, eval, rl, out) && DiscoveryServes(d', Selection(c, eval, rl), rl)
    ensures
      var pruned, store := PrunedClient(d', out, matches), Stored(Kept(Selection(c, eval, rl)));
      && Coherent(d, store)
      && Truthful(pruned, matches, store, Queries(c, eval, rl))
      && AllSucceed(pruned, Queries(c, eval, rl))
  {
    hide Coherent, TruthfulRead, Selection, Queries, ID, PrunedClient, IsPacking, Errors, Replays, Offer,
      OneVersionPerKind, PlainRequests;
    var pruned, selected := PrunedClient(d', out, matches), Selection(c, eval, rl);
    SelectionInWorld(d, c, matches, world, eval, rl);
    FilterIn(selected, NotANamespace());
    SubworldCoherent(d, world, Stored(Kept(selected)));
    forall q | q in Queries(c, eval, rl)
      ensures TruthfulRead(pruned, matches, Stored(Kept(selected)), q) && QueryErrors(pruned, q) == []
    {
      if q.ListQuery? { ListingsRead(c, eval, rl, q.sel); }
      ServedReadAnswers(d, d', c, matches, world, eval, rl, out, q);
    }
  }

  /** A list whose reads are covered: error-free on the cluster, and reading nothing that `rl` does not read. */
  ghost predicate Covers(c: Client, eval: PathEval, rl: ResourceList, covered: ResourceList)
  {
    && Errors(c, eval, covered) == [] && PlainRequests(covered)
    && forall q :: q in Queries(c, eval, covered) ==> q in Queries(c, eval, rl)
  }

  function NoTarget(ref: ResourceReference): ResourceReference
  {
    if ref.referring.resourceType == CORE_NAMESPACES then ref.(implicit := None) else ref
  }

  function NoTargets(refs: seq<ResourceReference>): seq<ResourceReference>
  {
    seq(|refs|, i requires 0 <= i < |refs| => NoTarget(refs[i]))
  }

  /** The resource list without the targets that Namespaces refer to. */
  function WithoutNamespaceTargets(rl: ResourceList): ResourceList
  {
    rl.(references := NoTargets(rl.references))
  }

  /** A client that has lost the Namespaces reads what the first client reads for the list without their targets. */
  lemma {:induction false} ReferenceQueriesWithout(
    c: Client, c': Client, eval: PathEval, refs: seq<ResourceReference>)
    requires forall ref :: ref in refs ==>
      if ref.referring.resourceType == CORE_NAMESPACES then !c'.get(ref.referring).Got?
      else c'.get(ref.referring) == c.get(ref.referring)
    ensures ReferenceQueries(c', eval, refs) == ReferenceQueries(c, eval, NoTargets(refs))
  {
    if refs != [] {
      var init, last := refs[..|refs| - 1], refs[|refs| - 1];
      assert last in refs;
      ReferenceQueriesWithout(c, c', eval, init);
      assert NoTargets(refs)[..|refs| - 1] == NoTargets(init);
      assert ReadsOf(c', eval, last) == ReadsOf(c, eval, NoTarget(last));
    }
  }

  /** Dropping targets adds no read. */
  lemma {:induction false} FewerReads(c: Client, eval: PathEval, refs: seq<ResourceReference>, q: Query)
    requires q in ReferenceQueries(c, eval, NoTargets(refs))
    ensures q in ReferenceQueries(c, eval, refs)
  {
    var init, last := refs[..|refs| - 1], refs[|refs| - 1];
    assert NoTargets(refs)[..|refs| - 1] == NoTargets(init);
    if q in ReferenceQueries(c, eval, NoTargets(init)) { FewerReads(c, eval, init, q); }
  }

  /** What the second client answers, read by read: what the first one does, Namespaces aside. */
  ghost predicate AnswersWithoutNamespaces(c: Client, c': Client, qs: seq<Query>)
  {
    forall q :: q in qs ==>
      && QueryErrors(c', q) == [] && QueryErrors(c, q) == []
      && forall r :: r in Offer(c', q) <==> r in Offer(c, q) && r.resourceType != CORE_NAMESPACES
  }

  lemma GetWithoutNamespaces(c: Client, c': Client, qs: seq<Query>, id: ExactResourceID)
    requires AnswersWithoutNamespaces(c, c', qs) && GetQuery(id) in qs
    ensures if id.resourceType == CORE_NAMESPACES then c'.get(id) == NotFound else c'.get(id) == c.get(id)
  {
    var q := GetQuery(id);
    assert c.get(id).Got? ==> Wrap(id.resourceType, c.get(id).value) in Offer(c, q);
    assert c'.get(id).Got? ==> Wrap(id.resourceType, c'.get(id).value) in Offer(c', q);
  }

  /** The second client makes the reads of the list without Namespace targets, and has no trouble with them. */
  lemma ReadsWithoutNamespaces(c: Client, c': Client, eval: PathEval, rl: ResourceList)
    requires AnswersWithoutNamespaces(c, c', Queries(c, eval, rl)) && Untroubled(c, eval, rl)
    ensures Queries(c', eval, rl) == Queries(c, eval, WithoutNamespaceTargets(rl))
    ensures forall q :: q in Queries(c', eval, rl) ==> q in Queries(c, eval, rl)
    ensures Untroubled(c', eval, rl)
  {
    hide Offer, AnswersWithoutNamespaces;
    var qs := Queries(c, eval, rl);
    forall ref | ref in rl.references
      ensures if ref.referring.resourceType == CORE_NAMESPACES then c'.get(ref.referring) == NotFound
              else c'.get(ref.referring) == c.get(ref.referring)
    {
      var i :| 0 <= i < |rl.references| && rl.references[i] == ref;
      assert GetQuery(ref.referring) in ReadsOf(c, eval, rl.references[i]);
      ReferenceQueriesIn(c, eval, rl.references, GetQuery(ref.referring));
      GetWithoutNamespaces(c, c', qs, ref.referring);
    }
    ReferenceQueriesWithout(c, c', eval, rl.references);
    forall q | q in Queries(c', eval, rl) ensures q in qs && QueryErrors(c', q) == [] {
      if q in ReferenceQueries(c', eval, rl.references) { FewerReads(c, eval, rl.references, q); }
      AnswersAt(c, c', qs, q);
    }
  }

  lemma AnswersAt(c: Client, c': Client, qs: seq<Query>, q: Query)
    requires AnswersWithoutNamespaces(c, c', qs) && q in qs
    ensures QueryErrors(c', q) == []
    ensures forall r :: r in Offer(c', q) <==> r in Offer(c, q) && r.resourceType != CORE_NAMESPACES
  {
  }

  lemma OffersWithoutNamespaces(c: Client, c': Client, qs: seq<Query>)
    requires AnswersWithoutNamespaces(c, c', qs)
    ensures forall r :: r in OfferAll(c', qs) <==> r in OfferAll(c, qs) && r.resourceType != CORE_NAMESPACES
  {
    hide Offer, AnswersWithoutNamespaces;
    OfferAllIn(c, qs);
    OfferAllIn(c', qs);
    forall i | 0 <= i < |qs|
      ensures forall r :: r in Offer(c', qs[i]) <==> r in Offer(c, qs[i]) && r.resourceType != CORE_NAMESPACES
    {
      AnswersAt(c, c', qs, qs[i]);
    }
  }

  lemma CoveredAnswers(
    d: Discovery, d': Discovery, c: Client, matches: LabelMatch, world: set<ObjectResource>, eval: PathEval,
    rl: ResourceList, out: seq<PackedResource>, covered: ResourceList)
    requires PrunedFrom(d, c, matches, world, eval, rl, out) && Covers(c, eval, rl, covered)
    requires DiscoveryServes(d', Selection(c, eval, rl), covered)
    ensures AnswersWithoutNamespaces(c, PrunedClient(d', out, matches), Queries(c, eval, covered))
  {
    hide PrunedFrom, Selection, Queries, PrunedClient, Offer, Errors, Replays, TruthfulRead, PlainRequests;
    forall q | q in Queries(c, eval, covered)
      ensures
        var pruned := PrunedClient(d', out, matches);
        && QueryErrors(pruned, q) == [] && QueryErrors(c, q) == []
        && forall r :: r in Offer(pruned, q) <==> r in Offer(c, q) && r.resourceType != CORE_NAMESPACES
    {
      if q.ListQuery? { ListingsRead(c, eval, covered, q.sel); }
      ServedReadAnswers(d, d', c, matches, world, eval, rl, out, q);
    }
  }

  /** What pruning the pruned directory gives for a covered list, Namespaces or not: no error, and everything but the
      Namespaces and what only Namespaces refer to. The loss is silent. */
  lemma PrunedDirectoryKeeps(
    d: Discovery, d': Discovery, c: Client, matches: LabelMatch, world: set<ObjectResource>, eval: PathEval,
    rl: ResourceList, out: seq<PackedResource>, covered: ResourceList)
    requires PrunedFrom(d, c, matches, world, eval, rl, out) && Covers(c, eval, rl, covered)
    requires DiscoveryServes(d', Selection(c, eval, rl), covered)
    ensures
      var pruned := PrunedClient(d', out, matches);
      && Errors(pruned, eval, covered) == []
      && (forall r :: r in Selection(pruned, eval, covered) <==>
            r in Selection(c, eval, WithoutNamespaceTargets(covered)) && r.resourceType != CORE_NAMESPACES)
  {
    hide Coherent, Selection, Queries, PrunedClient, Offer, OfferAll, Errors, PlainRequests, Untroubled,
      DiscoveryServes, ID, AnswersWithoutNamespaces, WithoutNamespaceTargets, IsPacking, OneVersionPerKind, Truthful;
    var pruned := PrunedClient(d', out, matches);
    CoveredAnswers(d, d', c, matches, world, eval, rl, out, covered);
    NoErrorsExactly(c, eval, covered);
    ReadsWithoutNamespaces(c, pruned, eval, covered);
    NoErrorsExactly(pruned, eval, covered);
    var qs := Queries(pruned, eval, covered);
    FewerAnswers(c, pruned, qs, Queries(c, eval, covered));
    OffersWithoutNamespaces(c, pruned, qs);
    SelectionInWorld(d, c, matches, world, eval, rl);
    OfferedElsewhere(c, qs, Queries(c, eval, rl));
    OfferedInWorld(d, c, matches, world, Queries(c, eval, rl));
    FirstInWorld(d, world, OfferAll(c, qs));
    FirstInWorld(d, world, OfferAll(pruned, qs));
    SelectionIs(c, eval, WithoutNamespaceTargets(covered));
    SelectionIs(pruned, eval, covered);
  }

  lemma SelectionIs(c: Client, eval: PathEval, rl: ResourceList)
    ensures Selection(c, eval, rl) == FirstOccurrences(OfferAll(c, Queries(c, eval, rl)), ID)
  {
  }

  lemma FewerAnswers(c: Client, c': Client, qs: seq<Query>, more: seq<Query>)
    requires AnswersWithoutNamespaces(c, c', more) && forall q :: q in qs ==> q in more
    ensures AnswersWithoutNamespaces(c, c', qs)
  {
  }

  lemma OfferedElsewhere(c: Client, qs: seq<Query>, more: seq<Query>)
    requires forall q :: q in qs ==> q in more
    ensures forall r :: r in OfferAll(c, qs) ==> r in OfferAll(c, more)
  {
    hide Offer;
    OfferAllIn(c, qs);
    OfferAllIn(c, more);
    forall r | r in OfferAll(c, qs) ensures r in OfferAll(c, more) {
      var i :| 0 <= i < |qs| && r in Offer(c, qs[i]);
      assert qs[i] in more;
      var j :| 0 <= j < |more| && more[j] == qs[i];
    }
  }

  lemma FoundIsOffered(c: Client, id: ExactResourceID)
    ensures c.get(id).Got? ==> exists r :: r in Offer(c, GetQuery(id)) && r.resourceType == id.resourceType
  {
    assert c.get(id).Got? ==> Wrap(id.resourceType, c.get(id).value) in Offer(c, GetQuery(id));
  }

  /** With no Namespace selected there is no target to lose. */
  lemma NoTargetsLost(c: Client, eval: PathEval, rl: ResourceList)
    requires forall r :: r in OfferAll(c, Queries(c, eval, rl)) ==> r.resourceType != CORE_NAMESPACES
    ensures Queries(c, eval, WithoutNamespaceTargets(rl)) == Queries(c, eval, rl)
  {
    var qs := Queries(c, eval, rl);
    forall ref | ref in rl.references && ref.referring.resourceType == CORE_NAMESPACES
      ensures !c.get(ref.referring).Got?
    {
      var i :| 0 <= i < |rl.references| && rl.references[i] == ref;
      assert GetQuery(ref.referring) in ReadsOf(c, eval, rl.references[i]);
      ReferenceQueriesIn(c, eval, rl.references, GetQuery(ref.referring));
      assert GetQuery(ref.referring) in qs;
      OfferAllIn(c, qs);
      var j :| 0 <= j < |qs| && qs[j] == GetQuery(ref.referring);
      FoundIsOffered(c, ref.referring);
    }
    ReferenceQueriesWithout(c, c, eval, rl.references);
  }

  /** Errors on the pruned directory are exactly those of its discovery. */
  lemma PrunedErrorsExactly(
    d: Discovery, d': Discovery, c: Client, matches: LabelMatch, world: set<ObjectResource>, eval: PathEval,
    rl: ResourceList, out: seq<PackedResource>, covered: ResourceList)
    requires PrunedFrom(d, c, matches, world, eval, rl, out) && Covers(c, eval, rl, covered)
    ensures Errors(PrunedClient(d', out, matches), eval, covered) == [] <==>
            DiscoveryServes(d', Selection(c, eval, rl), covered)
  {
    hide PrunedFrom, Selection, Queries, PrunedClient, Errors, ServesListing, PlainRequests;
    var pruned := PrunedClient(d', out, matches);
    if DiscoveryServes(d', Selection(c, eval, rl), covered) {
      PrunedDirectoryKeeps(d, d', c, matches, world, eval, rl, out, covered);
    } else {
      var sel :| sel in covered.labelSelected && !ServesListing(d', Selection(c, eval, rl), sel);
      ListingsRead(c, eval, covered, sel);
      ListingsRead(pruned, eval, covered, sel);
      UnservedReadFails(d, d', c, matches, world, eval, rl, out, ListQuery(sel));
      NoErrorsExactly(pruned, eval, covered);
    }
  }

  /** What was pruned for one resource list serves every list whose reads it covers, without error and with what
      pruning the cluster for that list selects, exactly when that selects no core Namespace and the directory's
      discovery serves the list's listings. */
  lemma PrunedDirectoryServesCoveredLists(
    d: Discovery, d': Discovery, c: Client, matches: LabelMatch, world: set<ObjectResource>, eval: PathEval,
    rl: ResourceList, out: seq<PackedResource>, covered: ResourceList)
    requires PrunedFrom(d, c, matches, world, eval, rl, out) && Covers(c, eval, rl, covered)
    ensures
      var pruned := PrunedClient(d', out, matches);
      (Errors(pruned, eval, covered) == []
       && forall r :: r in Selection(pruned, eval, covered) <==> r in Selection(c, eval, covered))
      <==>
      NoNamespaces(Selection(c, eval, covered)) && DiscoveryServes(d', Selection(c, eval, rl), covered)
  {
    hide Coherent, Queries, PrunedClient, Offer, OfferAll, Errors, PlainRequests, Truthful, IsPacking,
      DiscoveryServes, ID, WithoutNamespaceTargets, OneVersionPerKind, NoNamespaces;
    var pruned := PrunedClient(d', out, matches);
    PrunedErrorsExactly(d, d', c, matches, world, eval, rl, out, covered);
    SelectionInWorld(d, c, matches, world, eval, rl);
    OfferedElsewhere(c, Queries(c, eval, covered), Queries(c, eval, rl));
    OfferedInWorld(d, c, matches, world, Queries(c, eval, rl));
    FirstInWorld(d, world, OfferAll(c, Queries(c, eval, covered)));
    KeptIsAll(d, world, Selection(c, eval, covered));
    if DiscoveryServes(d', Selection(c, eval, rl), covered) {
      PrunedDirectoryKeeps(d, d', c, matches, world, eval, rl, out, covered);
      if NoNamespaces(Selection(c, eval, covered)) {
        NoTargetsLost(c, eval, covered);
      }
    }
  }

  /** Replaying the reads in order: the selection comes back as it was. */
  lemma SelectionReplayed(
    d: Discovery, d': Discovery, c: Client, matches: LabelMatch, world: set<ObjectResource>, eval: PathEval,
    rl: ResourceList, out: seq<PackedResource>)
    requires PrunedFrom(d, c, matches, world, eval, rl, out)
    requires NoNamespaces(Selection(c, eval, rl)) && DiscoveryServes(d', Selection(c, eval, rl), rl)
    ensures Errors(PrunedClient(d', out, matches), eval, rl) == []
    ensures Selection(PrunedClient(d', out, matches), eval, rl) == Selection(c, eval, rl)
  {
    hide Coherent, TruthfulRead, Selection, Queries, ID, PrunedClient, IsPacking, Errors, Replays, Offer, Kept,
      OneVersionPerKind, PlainRequests, Truthful, NoNamespaces;
    var pruned, selected := PrunedClient(d', out, matches), Selection(c, eval, rl);
    SelectionInWorld(d, c, matches, world, eval, rl);
    KeptIsAll(d, world, selected);
    forall q | q in Queries(c, eval, rl)
      ensures exists namespaces :: Replays(pruned, matches, selected, q, namespaces)
    {
      if q.ListQuery? { ListingsRead(c, eval, rl, q.sel); }
      ServedReadAnswers(d, d', c, matches, world, eval, rl, out, q);
    }
    ReplayedSelection(d, c, pruned, matches, world, eval, rl);
  }

  /** The pruned directory is sufficient, exactly. Pruning a cluster, packing the selection, writing it to an empty
      directory and pruning that directory with the same resource list reports no error and gives the same selection,
      order and contents included, if and only if no core Namespace was selected, and the directory's own discovery
      knows the type of every listing, with the kind of the selected resources it lists. Without errors it is exactly
      the discovery that matters: Namespaces are lost silently. */
  lemma PrunedDirectoryIsSufficient(
    d: Discovery, d': Discovery, c: Client, matches: LabelMatch, world: set<ObjectResource>, eval: PathEval,
    rl: ResourceList, out: seq<PackedResource>)
    requires PrunedFrom(d, c, matches, world, eval, rl, out)
    ensures
      var pruned, selected := PrunedClient(d', out, matches), Selection(c, eval, rl);
      && (Errors(pruned, eval, rl) == [] <==> DiscoveryServes(d', selected, rl))
      && (Errors(pruned, eval, rl) == [] && Selection(pruned, eval, rl) == selected <==>
          NoNamespaces(selected) && DiscoveryServes(d', selected, rl))
  {
    hide Coherent, Truthful, Queries, PrunedClient, IsPacking, Errors, OneVersionPerKind, PlainRequests, Selection,
      NoNamespaces, DiscoveryServes;
    assert Covers(c, eval, rl, rl);
    PrunedErrorsExactly(d, d', c, matches, world, eval, rl, out, rl);
    PrunedDirectoryServesCoveredLists(d, d', c, matches, world, eval, rl, out, rl);
    if NoNamespaces(Selection(c, eval, rl)) && DiscoveryServes(d', Selection(c, eval, rl), rl) {
      SelectionReplayed(d, d', c, matches, world, eval, rl, out);
    }
  }

  /** Pruning is idempotent on directories: where the pruned directory is sufficient, packing the second selection
      yields the same files with the same contents, so the comparison of the two prunings reports nothing. */
  lemma PruningIsIdempotent(
    d: Discovery, d': Discovery, c: Client, matches: LabelMatch, world: set<ObjectResource>, eval: PathEval,
    rl: ResourceList, out: seq<PackedResource>, out': seq<PackedResource>)
    requires PrunedFrom(d, c, matches, world, eval, rl, out)
    requires NoNamespaces(Selection(c, eval, rl)) && DiscoveryServes(d', Selection(c, eval, rl), rl)
    requires IsPacking(Selection(PrunedClient(d', out, matches), eval, rl), out')
    ensures multiset(out) == multiset(out')
    ensures Reasons(out, out') == []
  {
    hide Coherent, Truthful, Queries, ID, PrunedClient, PlainType, IsPacking, Errors, Selection, PackedFor,
      DiscoveryServes, NoNamespaces;
    var selected := Selection(c, eval, rl);
    SelectionReplayed(d, d', c, matches, world, eval, rl, out);
    SelectionInWorld(d, c, matches, world, eval, rl);
    SelectionPackable(d, world, selected);
    SameGroupsSelf(d, selected);
    SameGroupsEquivalent(d, selected, selected, out, out');
  }

  lemma SameGroupsSelf(d: Discovery, rs: seq<ObjectResource>)
    requires Packable(d, rs)
    ensures SameGroups(d, rs, rs)
  {
    forall r | r in rs ensures r.content in Contents(rs) && Discovered(d, r) {
      InContents(rs, r);
      assert Typed(d, r);
    }
  }

  /** The discovery that knows the type of one resource. */
  function DiscoveryOf(r: ObjectResource): Discovery
  {
    Discovery(map[r.content.gvk := [r.resourceType]], map[r.resourceType := r.content.gvk])
  }

  /** A client of one resource, asked for by name. */
  function ClientOf(r: ObjectResource): Client
  {
    Client(id => if AtId(r, id) then Got(r.content) else NotFound, sel => Got([r.content]))
  }

  function IdOf(r: ObjectResource): ExactResourceID
  {
    ExactResourceID(r.resourceType, r.content.namespace, r.content.name)
  }

  const EXAMPLE_NAMESPACE :=
    Resource("", CORE_NAMESPACES, Object(GVK("", "v1", "Namespace"), "", "openshift", "{}"))
  const EXAMPLE_WIDGET :=
    Resource("", GVR("example.io", "v1", "widgets"), Object(GVK("example.io", "v1", "Widget"), "", "one", "{}"))

  lemma OneIsPacked(r: ObjectResource) returns (out: seq<PackedResource>)
    ensures OneVersionPerKind([r]) && IsPacking([r], out)
  {
    var k := KeyOf(r.content);
    assert Contents([r]) == [r.content];
    assert KeysOf([r]) == {k};
    out := [PackedFor([r], k)];
    assert PacksInOrder([r], out, [k]);
  }

  /** A run of one successful read that offers one resource. */
  lemma OneRead(c: Client, eval: PathEval, rl: ResourceList, q: Query, r: ObjectResource)
    requires rl.references == [] && GetQueries(rl.exact) + ListQueries(rl.labelSelected) == [q]
    requires Offer(c, q) == [r]
    ensures Queries(c, eval, rl) == [q]
    ensures Errors(c, eval, rl) == []
    ensures Selection(c, eval, rl) == [r]
  {
    assert Queries(c, eval, rl) == [q] + [];
    assert QueryErrors(c, q) == [];
    NoErrorsExactly(c, eval, rl);
    OfferAllStep(c, [], q);
    assert [] + [q] == [q];
    FirstOccurrencesIdempotent([r], ID);
  }

  /** A single resource is a coherent world if its own parts are in order. */
  lemma OneIsCoherent(r: ObjectResource)
    requires r.filename == "" && PlainResource(r) && Identifiable(r)
    requires r.resourceType.group == r.content.gvk.group && r.resourceType.version == r.content.gvk.version
    requires r.resourceType.resource == "namespaces" ==>
      r.resourceType == CORE_NAMESPACES && r.content.namespace == "" && r.content.name != ""
    ensures Coherent(DiscoveryOf(r), {r})
  {
    hide PlainResource, Identifiable;
    assert Typed(DiscoveryOf(r), r);
  }

  lemma ExampleNamespaceCoherent()
    ensures Coherent(DiscoveryOf(EXAMPLE_NAMESPACE), {EXAMPLE_NAMESPACE})
  {
    hide Coherent;
    OneIsCoherent(EXAMPLE_NAMESPACE);
  }

  lemma ExampleWidgetCoherent()
    ensures Coherent(DiscoveryOf(EXAMPLE_WIDGET), {EXAMPLE_WIDGET})
  {
    hide Coherent;
    assert EXAMPLE_WIDGET.resourceType.group[0] == 'e' && EXAMPLE_WIDGET.resourceType.resource[0] == 'w';
    assert EXAMPLE_WIDGET.content.gvk.group[1] == 'x' && EXAMPLE_WIDGET.resourceType.resource[1] == 'i';
    OneIsCoherent(EXAMPLE_WIDGET);
  }

  lemma NamespaceExample(matches: LabelMatch, eval: PathEval) returns (out: seq<PackedResource>)
    ensures
      var r, rl := EXAMPLE_NAMESPACE, ResourceList([IdOf(EXAMPLE_NAMESPACE)], [], []);
      && PrunedFrom(DiscoveryOf(r), ClientOf(r), matches, {r}, eval, rl, out)
      && Selection(ClientOf(r), eval, rl) == [r]
  {
    hide Coherent, ID, IsPacking, OneVersionPerKind, Errors, Selection;
    var r := EXAMPLE_NAMESPACE;
    var rl, q := ResourceList([IdOf(r)], [], []), GetQuery(IdOf(r));
    ExampleNamespaceCoherent();
    out := OneIsPacked(r);
    assert GetQueries(rl.exact) + ListQueries(rl.labelSelected) == [q];
    OneRead(ClientOf(r), eval, rl, q, r);
    assert TruthfulRead(ClientOf(r), matches, {r}, q) && PlainType(r.resourceType);
  }

  /** An input that loses a Namespace: a cluster of one Namespace, asked for by name. It is selected, packed and
      written without error, and pruning the directory selects nothing, without error. */
  lemma NamespaceIsLost(d': Discovery, matches: LabelMatch, eval: PathEval) returns (out: seq<PackedResource>)
    ensures
      var r, rl := EXAMPLE_NAMESPACE, ResourceList([IdOf(EXAMPLE_NAMESPACE)], [], []);
      && PrunedFrom(DiscoveryOf(r), ClientOf(r), matches, {r}, eval, rl, out)
      && Selection(ClientOf(r), eval, rl) == [r]
      && Errors(PrunedClient(d', out, matches), eval, rl) == []
      && Selection(PrunedClient(d', out, matches), eval, rl) == []
  {
    hide Coherent, Truthful, ID, IsPacking, OneVersionPerKind, Errors, Selection, Queries, PrunedClient, ClientOf;
    var r, rl := EXAMPLE_NAMESPACE, ResourceList([IdOf(EXAMPLE_NAMESPACE)], [], []);
    out := NamespaceExample(matches, eval);
    PrunedDirectoryKeeps(DiscoveryOf(r), d', ClientOf(r), matches, {r}, eval, rl, out, rl);
    assert WithoutNamespaceTargets(rl) == rl;
    var again := Selection(PrunedClient(d', out, matches), eval, rl);
    SomeElement(again);
  }

  lemma SomeElement(rs: seq<ObjectResource>)
    ensures rs == [] || exists r :: r in rs
  {
    if rs != [] { assert rs[0] in rs; }
  }

  function Everything(): LabelMatch
  {
    (selector: string, o: Object) => true
  }

  lemma ListingExample(eval: PathEval) returns (out: seq<PackedResource>)
    ensures
      var r, sel := EXAMPLE_WIDGET, LabelSelected(EXAMPLE_WIDGET.resourceType, "", "");
      && PrunedFrom(DiscoveryOf(r), ClientOf(r), Everything(), {r}, eval, ResourceList([], [sel], []), out)
      && Selection(ClientOf(r), eval, ResourceList([], [sel], [])) == [r]
  {
    hide Coherent, ID, IsPacking, OneVersionPerKind, Errors, Selection;
    var r, sel := EXAMPLE_WIDGET, LabelSelected(EXAMPLE_WIDGET.resourceType, "", "");
    var rl, q := ResourceList([], [sel], []), ListQuery(sel);
    ExampleWidgetCoherent();
    out := OneIsPacked(r);
    assert GetQueries(rl.exact) + ListQueries(rl.labelSelected) == [q];
    OneRead(ClientOf(r), eval, rl, q, r);
    assert WrapAll(r.resourceType, [r.content]) == [r];
    assert TruthfulRead(ClientOf(r), Everything(), {r}, q) && PlainType(r.resourceType);
  }

  /** An input that needs the discovery of the first directory: a cluster of one resource of a type that the pruned
      directory's discovery lacks, listed by label. It is selected, packed and written without error, no Namespace is
      involved, and pruning the directory fails. */
  lemma ListingIsLost(d': Discovery, eval: PathEval) returns (out: seq<PackedResource>)
    requires EXAMPLE_WIDGET.resourceType !in d'.kinds
    ensures
      var r, sel := EXAMPLE_WIDGET, LabelSelected(EXAMPLE_WIDGET.resourceType, "", "");
      && PrunedFrom(DiscoveryOf(r), ClientOf(r), Everything(), {r}, eval, ResourceList([], [sel], []), out)
      && Selection(ClientOf(r), eval, ResourceList([], [sel], [])) == [r] && NoNamespaces([r])
      && Errors(PrunedClient(d', out, Everything()), eval, ResourceList([], [sel], [])) != []
  {
    hide Coherent, Truthful, ID, IsPacking, OneVersionPerKind, Errors, Selection, Queries, PrunedClient, ClientOf;
    var r, sel := EXAMPLE_WIDGET, LabelSelected(EXAMPLE_WIDGET.resourceType, "", "");
    var rl := ResourceList([], [sel], []);
    out := ListingExample(eval);
    assert sel in rl.labelSelected && !ServesListing(d', [r], sel);
    PrunedErrorsExactly(DiscoveryOf(r), d', ClientOf(r), Everything(), {r}, eval, rl, out, rl);
    assert r.resourceType.resource[0] == 'w';
  }
}
