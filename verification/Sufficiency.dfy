/** The pruned directory is sufficient: pruning it again selects the same resources. */
module Sufficiency {
  import opened Seqs
  import opened Dedup
  import opened GoStrings
  import opened Kube
  import opened Prune
  import opened MustGatherClient
  import opened NamespaceOrder
  import opened RoundTrip

  /** The resource is the one a read by name asks for, whatever the version. */
  predicate AtId(r: ObjectResource, id: ExactResourceID)
  {
    && r.resourceType.group == id.resourceType.group
    && r.resourceType.resource == id.resourceType.resource
    && r.content.namespace == id.namespace
    && r.content.name == id.name
  }

  /** The resource is in the type and namespace scope of a listing, whatever the version. */
  predicate InScope(r: ObjectResource, sel: LabelSelected)
  {
    && r.resourceType.group == sel.resourceType.group
    && r.resourceType.resource == sel.resourceType.resource
    && (sel.namespace == "" || r.content.namespace == sel.namespace)
  }

  /** The resources a read is meant to return. A must-gather listing of core namespaces ignores the selector. */
  function Matching(matches: LabelMatch, q: Query): ObjectResource -> bool
  {
    match q
    case GetQuery(id) => (r: ObjectResource) => AtId(r, id)
    case ListQuery(sel) =>
      (r: ObjectResource) => InScope(r, sel) &&
        (sel.resourceType == CORE_NAMESPACES || matches(sel.selector, r.content))
  }

  predicate SameGroupResource(a: GVR, b: GVR)
  {
    a.group == b.group && a.resource == b.resource
  }

  /** The contents of a cluster: typed as discovery says, identified by group, resource, namespace and name, one
      version per group and resource. The name "namespaces" belongs to the core namespaces alone, as request parsing
      takes for granted. */
  ghost predicate Coherent(d: Discovery, world: set<ObjectResource>)
  {
    && (forall r :: r in world ==> r.filename == "" && Typed(d, r) && PlainResource(r) && Identifiable(r))
    && (forall a, b :: a in world && b in world && SameIdentity(a, b) ==> a == b)
    && (forall a, b :: a in world && b in world && SameGroupResource(a.resourceType, b.resourceType)
                       ==> a.resourceType == b.resourceType)
    && (forall r :: r in world && r.resourceType.resource == "namespaces" ==>
          r.resourceType == CORE_NAMESPACES && r.content.namespace == "" && r.content.name != "")
  }

  /** A read that does not fail tells the truth about the world. */
  ghost predicate TruthfulGet(c: Client, world: set<ObjectResource>, id: ExactResourceID)
  {
    match c.get(id)
    case Failed => true
    case NotFound => ValidGet(id) && forall r :: r in world ==> !AtId(r, id)
    case Got(o) => ValidGet(id) && Wrap(id.resourceType, o) in world && AtId(Wrap(id.resourceType, o), id)
  }

  /** A listing that does not fail returns exactly the matching resources, once each, namespace by namespace. */
  ghost predicate TruthfulList(c: Client, matches: LabelMatch, world: set<ObjectResource>, sel: LabelSelected)
  {
    match c.list(sel)
    case Failed => true
    case NotFound => false
    case Got(os) =>
      && ValidSegment(sel.namespace) && sel.resourceType.resource != ""
      && (forall r :: r in world && InScope(r, sel) ==> r.resourceType == sel.resourceType)
      && var rs := WrapAll(sel.resourceType, os);
         && (forall r :: r in rs <==> r in world && Matching(matches, ListQuery(sel))(r))
         && Distinct(rs)
         && NamespaceSorted(rs)
  }

  ghost predicate TruthfulRead(c: Client, matches: LabelMatch, world: set<ObjectResource>, q: Query)
  {
    match q
    case GetQuery(id) => TruthfulGet(c, world, id)
    case ListQuery(sel) => TruthfulList(c, matches, world, sel)
  }

  /** The client tells the truth about the world in the given reads. */
  ghost predicate Truthful(c: Client, matches: LabelMatch, world: set<ObjectResource>, qs: seq<Query>)
  {
    forall q :: q in qs ==> TruthfulRead(c, matches, world, q)
  }

  lemma TruthfulAt(c: Client, matches: LabelMatch, world: set<ObjectResource>, qs: seq<Query>, q: Query)
    requires Truthful(c, matches, world, qs) && q in qs
    ensures TruthfulRead(c, matches, world, q)
  {
  }

  lemma WorldIds(d: Discovery, world: set<ObjectResource>, a: ObjectResource, b: ObjectResource)
    requires Coherent(d, world) && a in world && b in world && ID(a) == ID(b)
    ensures a == b
  {
    IDInjective(a, b);
  }

  lemma DistinctByIds(d: Discovery, world: set<ObjectResource>, xs: seq<ObjectResource>)
    requires Coherent(d, world) && Distinct(xs) && forall x :: x in xs ==> x in world
    ensures DistinctKeys(xs, ID)
  {
    forall i, j | 0 <= i < j < |xs| ensures ID(xs[i]) != ID(xs[j]) {
      assert xs[i] in xs && xs[j] in xs;
      if ID(xs[i]) == ID(xs[j]) { WorldIds(d, world, xs[i], xs[j]); }
    }
  }

  /** A truthful read that does not fail offers exactly the matching resources of the world. */
  lemma TruthfulOffer(d: Discovery, c: Client, matches: LabelMatch, world: set<ObjectResource>, q: Query)
    requires Coherent(d, world) && TruthfulRead(c, matches, world, q) && QueryErrors(c, q) == []
    ensures forall r :: r in Offer(c, q) <==> r in world && Matching(matches, q)(r)
    ensures DistinctKeys(Offer(c, q), ID) && NamespaceSorted(Offer(c, q))
  {
    match q
    case GetQuery(id) =>
      forall r | r in world && Matching(matches, q)(r) ensures r in Offer(c, q) {
        assert SameIdentity(r, Wrap(id.resourceType, c.get(id).value));
      }
    case ListQuery(sel) =>
      DistinctByIds(d, world, Offer(c, q));
  }

  lemma {:induction false} OfferAllAppend(c: Client, a: seq<Query>, b: seq<Query>)
    ensures OfferAll(c, a + b) == OfferAll(c, a) + OfferAll(c, b)
  {
    hide Offer;
    if b == [] {
      assert a + b == a;
    } else {
      var init, last := b[..|b| - 1], b[|b| - 1];
      OfferAllAppend(c, a, init);
      OfferAllStep(c, a + init, last);
      assert a + b == (a + init) + [last];
    }
  }

  /** A truthful run: all its reads succeed and tell the truth about one coherent world. */
  ghost predicate TruthfulRun(d: Discovery, c: Client, matches: LabelMatch, world: set<ObjectResource>, qs: seq<Query>)
  {
    Coherent(d, world) && Truthful(c, matches, world, qs) && AllSucceed(c, qs)
  }

  lemma OfferedInWorld(d: Discovery, c: Client, matches: LabelMatch, world: set<ObjectResource>, qs: seq<Query>)
    requires TruthfulRun(d, c, matches, world, qs)
    ensures forall r :: r in OfferAll(c, qs) ==> r in world
  {
    OfferAllIn(c, qs);
    forall r | r in OfferAll(c, qs) ensures r in world {
      var i :| 0 <= i < |qs| && r in Offer(c, qs[i]);
      assert qs[i] in qs;
      TruthfulOffer(d, c, matches, world, qs[i]);
    }
  }

  /** What read `i` adds to the selection is what the whole selection holds that matches the read and was not there
      before; nothing that matches it can be added later. */
  lemma NewOfRead(d: Discovery, c: Client, matches: LabelMatch, world: set<ObjectResource>, qs: seq<Query>, i: nat)
    requires TruthfulRun(d, c, matches, world, qs) && i < |qs|
    ensures
      var known := Keys(OfferAll(c, qs[..i]), ID);
      var selected := FirstOccurrences(OfferAll(c, qs), ID);
      Filter(Filter(selected, Matching(matches, qs[i])), NotIn(known, ID)) == Filter(Offer(c, qs[i]), NotIn(known, ID))
  {
    hide OfferAll, Offer, Matching, Coherent, Truthful, FirstOccurrences, Filter, ID;
    var q := qs[i];
    assert q in qs;
    var before, now, after := OfferAll(c, qs[..i]), Offer(c, q), OfferAll(c, qs[i + 1..]);
    OfferAllStep(c, qs[..i], q);
    OfferAllAppend(c, qs[..i] + [q], qs[i + 1..]);
    assert qs == (qs[..i] + [q]) + qs[i + 1..];
    OfferedInWorld(d, c, matches, world, qs);
    TruthfulAt(c, matches, world, qs, q);
    TruthfulOffer(d, c, matches, world, q);
    assert OfferAll(c, qs) == (before + now) + after;
    var m := Matching(matches, q);
    forall r | r in after && m(r) ensures r in now { assert r in OfferAll(c, qs); }
    SplitSelection(before, now, after, m);
  }

  /** The bookkeeping of `NewOfRead`, on the offers alone. */
  lemma SplitSelection(
    before: seq<ObjectResource>, now: seq<ObjectResource>, after: seq<ObjectResource>, m: ObjectResource -> bool)
    requires DistinctKeys(now, ID)
    requires forall r :: r in now ==> m(r)
    requires forall r :: r in after && m(r) ==> r in now
    ensures
      var known := Keys(before, ID);
      Filter(Filter(FirstOccurrences((before + now) + after, ID), m), NotIn(known, ID)) == Filter(now, NotIn(known, ID))
  {
    var known := Keys(before, ID);
    var isNew, m' := NotIn(known, ID), Both(m, NotIn(known, ID));
    var added := Filter(now, isNew);
    var first := FirstOccurrences(before, ID);
    FirstOccurrencesAppend(before, now, ID);
    var rest := FirstOccurrencesPrefix(before + now, after, ID);
    var selected := FirstOccurrences((before + now) + after, ID);
    SelectedPieces(before, now, after, rest, m);
    hide FirstOccurrences, Keys, NotIn;
    assert selected == (first + added) + rest;
    FilterAppend(first + added, rest, m');
    FilterAppend(first, added, m');
    FilterTwice(selected, m, isNew, m');
  }

  lemma SelectedPieces(
    before: seq<ObjectResource>, now: seq<ObjectResource>, after: seq<ObjectResource>, rest: seq<ObjectResource>,
    m: ObjectResource -> bool)
    requires forall r :: r in now ==> m(r)
    requires forall r :: r in after && m(r) ==> r in now
    requires forall r :: r in rest ==> r in after && ID(r) !in Keys(before + now, ID)
    ensures
      var isNew := NotIn(Keys(before, ID), ID);
      && Filter(FirstOccurrences(before, ID), Both(m, isNew)) == []
      && Filter(Filter(now, isNew), Both(m, isNew)) == Filter(now, isNew)
      && Filter(rest, Both(m, isNew)) == []
  {
    hide ID, FirstOccurrences;
    var isNew := NotIn(Keys(before, ID), ID);
    var m' := Both(m, isNew);
    KnownIsNotNew(before, m);
    assert Filter(Filter(now, isNew), m') == Filter(now, isNew) by {
      FilterIn(now, isNew);
      FilterEverything(Filter(now, isNew), m');
    }
    assert Filter(rest, m') == [] by {
      assert forall r :: r in now ==> r in before + now && ID(r) in Keys(before + now, ID);
      FilterNothing(rest, m');
    }
  }

  lemma KnownIsNotNew(before: seq<ObjectResource>, m: ObjectResource -> bool)
    ensures Filter(FirstOccurrences(before, ID), Both(m, NotIn(Keys(before, ID), ID))) == []
  {
    hide ID;
    var first := FirstOccurrences(before, ID);
    var m' := Both(m, NotIn(Keys(before, ID), ID));
    FirstOccurrencesSet(before, ID);
    forall r | r in first ensures !m'(r) { assert ID(r) in Keys(first, ID); }
    FilterNothing(first, m');
  }

  /** How a read of the pruned directory answers: with the selected resources it matches, namespace by namespace. */
  ghost predicate Replays(
    c': Client, matches: LabelMatch, selected: seq<ObjectResource>, q: Query, namespaces: seq<string>)
  {
    && QueryErrors(c', q) == []
    && StrictlyAscending(namespaces)
    && (forall r :: r in selected && Matching(matches, q)(r) ==> r.content.namespace in namespaces)
    && Offer(c', q) == ByNamespace(Filter(selected, Matching(matches, q)), namespaces)
  }

  ghost predicate ReplaysAll(c': Client, matches: LabelMatch, selected: seq<ObjectResource>, qs: seq<Query>)
  {
    forall q :: q in qs ==> exists namespaces :: Replays(c', matches, selected, q, namespaces)
  }

  lemma ListingKeepsKeysDistinct(xs: seq<ObjectResource>, namespaces: seq<string>)
    requires DistinctKeys(xs, ID) && StrictlyAscending(namespaces)
    ensures DistinctKeys(ByNamespace(xs, namespaces), ID)
  {
    hide ID;
    if namespaces != [] {
      var init, last := namespaces[..|namespaces| - 1], namespaces[|namespaces| - 1];
      ListingKeepsKeysDistinct(xs, init);
      ByNamespaceIn(xs, init);
      FilterIn(xs, InNamespace(last));
      FilterDistinctKeys(xs, InNamespace(last), ID);
      assert last !in init by {
        CompareZero(last, last);
        forall i | 0 <= i < |init| ensures init[i] != last {
          assert Compare(namespaces[i], namespaces[|init|]) < 0;
        }
      }
      var low, top := ByNamespace(xs, init), Filter(xs, InNamespace(last));
      forall x, y | x in low && y in top ensures ID(x) != ID(y) {
        if ID(x) == ID(y) { SameKeySameElement(xs, x, y, ID); }
      }
      AppendKeepsKeysDistinct(low, top);
    }
  }

  lemma AppendKeepsKeysDistinct(a: seq<ObjectResource>, b: seq<ObjectResource>)
    requires DistinctKeys(a, ID) && DistinctKeys(b, ID)
    requires forall x, y :: x in a && y in b ==> ID(x) != ID(y)
    ensures DistinctKeys(a + b, ID)
  {
    hide ID;
    var c := a + b;
    forall i, j | 0 <= i < j < |c| ensures ID(c[i]) != ID(c[j]) {
      if i < |a| && |a| <= j {
        assert a[i] in a && b[j - |a|] in b;
      }
    }
  }

  /** One read replayed on an equal state adds, in the same order, what it added the first time. */
  lemma ReplayStep(
    d: Discovery, c: Client, c': Client, matches: LabelMatch, world: set<ObjectResource>, qs: seq<Query>, i: nat,
    namespaces: seq<string>)
    requires TruthfulRun(d, c, matches, world, qs) && i < |qs|
    requires Replays(c', matches, FirstOccurrences(OfferAll(c, qs), ID), qs[i], namespaces)
    ensures
      var known := Keys(OfferAll(c, qs[..i]), ID);
      && DistinctKeys(Offer(c', qs[i]), ID)
      && Filter(Offer(c', qs[i]), NotIn(known, ID)) == Filter(Offer(c, qs[i]), NotIn(known, ID))
  {
    var known := Keys(OfferAll(c, qs[..i]), ID);
    var selected := FirstOccurrences(OfferAll(c, qs), ID);
    var m, isNew := Matching(matches, qs[i]), NotIn(known, ID);
    var matching, added := Filter(selected, m), Filter(Offer(c, qs[i]), isNew);
    assert qs[i] in qs;
    NewOfRead(d, c, matches, world, qs, i);
    TruthfulOffer(d, c, matches, world, qs[i]);
    FirstOccurrencesSet(OfferAll(c, qs), ID);
    FilterDistinctKeys(selected, m, ID);
    ListingKeepsKeysDistinct(matching, namespaces);
    FilterByNamespace(matching, namespaces, isNew);
    assert Filter(matching, isNew) == added;
    FilterIn(selected, m);
    FilterIn(matching, isNew);
    NewAreSorted(Offer(c, qs[i]), isNew);
    forall j | 0 <= j < |added| ensures added[j].content.namespace in namespaces {
      assert added[j] in added;
    }
    ByNamespaceOfSorted(added, namespaces);
  }

  lemma {:induction false} NewAreSorted(xs: seq<ObjectResource>, keep: ObjectResource -> bool)
    requires NamespaceSorted(xs)
    ensures NamespaceSorted(Filter(xs, keep))
  {
    if xs != [] {
      var init, last := xs[..|xs| - 1], xs[|xs| - 1];
      NewAreSorted(init, keep);
      FilterIn(init, keep);
      var kept := Filter(init, keep);
      forall i | 0 <= i < |kept| ensures Compare(kept[i].content.namespace, last.content.namespace) <= 0 {
        assert kept[i] in kept;
        var j :| 0 <= j < |init| && init[j] == kept[i];
      }
    }
  }

  /** Replaying the reads on the pruned directory rebuilds the selection step by step. */
  lemma {:induction false} ReplayPrefix(
    d: Discovery, c: Client, c': Client, matches: LabelMatch, world: set<ObjectResource>, qs: seq<Query>, i: nat)
    requires TruthfulRun(d, c, matches, world, qs) && i <= |qs|
    requires ReplaysAll(c', matches, FirstOccurrences(OfferAll(c, qs), ID), qs)
    ensures FirstOccurrences(OfferAll(c', qs[..i]), ID) == FirstOccurrences(OfferAll(c, qs[..i]), ID)
  {
    hide ID, Offer, Replays, TruthfulRun;
    if i > 0 {
      var n := i - 1;
      ReplayPrefix(d, c, c', matches, world, qs, n);
      var q := qs[n];
      assert q in qs && qs[..i] == qs[..n] + [q];
      var namespaces :| Replays(c', matches, FirstOccurrences(OfferAll(c, qs), ID), q, namespaces);
      ReplayStep(d, c, c', matches, world, qs, n, namespaces);
      OfferDistinct(d, c, matches, world, qs, q);
      var before, before' := OfferAll(c, qs[..n]), OfferAll(c', qs[..n]);
      OfferAllStep(c, qs[..n], q);
      OfferAllStep(c', qs[..n], q);
      FirstOccurrencesAppend(before, Offer(c, q), ID);
      FirstOccurrencesAppend(before', Offer(c', q), ID);
      FirstOccurrencesSet(before, ID);
      FirstOccurrencesSet(before', ID);
    }
  }

  lemma OfferDistinct(
    d: Discovery, c: Client, matches: LabelMatch, world: set<ObjectResource>, qs: seq<Query>, q: Query)
    requires TruthfulRun(d, c, matches, world, qs) && q in qs
    ensures DistinctKeys(Offer(c, q), ID)
  {
    TruthfulOffer(d, c, matches, world, q);
  }

  /** What was read by name the first time is read by name again. */
  lemma GetReplays(
    d: Discovery, c: Client, c': Client, matches: LabelMatch, world: set<ObjectResource>, qs: seq<Query>,
    id: ExactResourceID)
    requires TruthfulRun(d, c, matches, world, qs) && GetQuery(id) in qs
    requires ReplaysAll(c', matches, FirstOccurrences(OfferAll(c, qs), ID), qs)
    ensures c'.get(id) == c.get(id)
  {
    hide ID, OfferAll;
    var q := GetQuery(id);
    var selected := FirstOccurrences(OfferAll(c, qs), ID);
    var namespaces :| Replays(c', matches, selected, q, namespaces);
    ByNamespaceIn(Filter(selected, Matching(matches, q)), namespaces);
    FilterIn(selected, Matching(matches, q));
    TruthfulOffer(d, c, matches, world, q);
    SelectedInWorld(d, c, matches, world, qs);
    assert forall r :: r in Offer(c', q) ==> r in Offer(c, q);
    assert c'.get(id).Got? ==> Wrap(id.resourceType, c'.get(id).value) in Offer(c', q);
    if c.get(id).Got? {
      var r := Wrap(id.resourceType, c.get(id).value);
      SelectedAgain(d, c, matches, world, qs, q, r);
      assert r in Offer(c', q);
    }
  }

  lemma SelectedInWorld(d: Discovery, c: Client, matches: LabelMatch, world: set<ObjectResource>, qs: seq<Query>)
    requires TruthfulRun(d, c, matches, world, qs)
    ensures forall r :: r in FirstOccurrences(OfferAll(c, qs), ID) ==> r in world
  {
    hide ID;
    OfferedInWorld(d, c, matches, world, qs);
    FirstOccurrencesSet(OfferAll(c, qs), ID);
  }

  /** Whatever a read of the run offered is selected. */
  lemma SelectedAgain(
    d: Discovery, c: Client, matches: LabelMatch, world: set<ObjectResource>, qs: seq<Query>, q: Query,
    r: ObjectResource)
    requires TruthfulRun(d, c, matches, world, qs) && q in qs && r in Offer(c, q)
    ensures r in FirstOccurrences(OfferAll(c, qs), ID)
  {
    var offered := OfferAll(c, qs);
    var i :| 0 <= i < |qs| && qs[i] == q;
    OfferAllIn(c, qs);
    FirstOccurrencesSet(offered, ID);
    OfferedInWorld(d, c, matches, world, qs);
    assert ID(r) in Keys(FirstOccurrences(offered, ID), ID);
    var u :| u in FirstOccurrences(offered, ID) && ID(u) == ID(r);
    WorldIds(d, world, u, r);
  }

  lemma {:induction false} ReferenceQueriesReplay(c: Client, c': Client, eval: PathEval, refs: seq<ResourceReference>)
    requires forall ref :: ref in refs ==> c'.get(ref.referring) == c.get(ref.referring)
    ensures ReferenceQueries(c', eval, refs) == ReferenceQueries(c, eval, refs)
  {
    if refs != [] {
      assert refs[|refs| - 1] in refs;
      ReferenceQueriesReplay(c, c', eval, refs[..|refs| - 1]);
    }
  }

  lemma ReferringReplays(
    d: Discovery, c: Client, c': Client, matches: LabelMatch, world: set<ObjectResource>, eval: PathEval,
    rl: ResourceList,
    ref: ResourceReference)
    requires TruthfulRun(d, c, matches, world, Queries(c, eval, rl))
    requires ReplaysAll(c', matches, Selection(c, eval, rl), Queries(c, eval, rl))
    requires ref in rl.references
    ensures c'.get(ref.referring) == c.get(ref.referring)
  {
    hide TruthfulRun, ReplaysAll, Offer, ID;
    var i :| 0 <= i < |rl.references| && rl.references[i] == ref;
    ReferenceQueriesIn(c, eval, rl.references, GetQuery(ref.referring));
    assert GetQuery(ref.referring) in ReadsOf(c, eval, rl.references[i]);
    GetReplays(d, c, c', matches, world, Queries(c, eval, rl), ref.referring);
  }

  lemma ReplayedReads(
    d: Discovery, c: Client, c': Client, matches: LabelMatch, world: set<ObjectResource>, eval: PathEval,
    rl: ResourceList)
    requires TruthfulRun(d, c, matches, world, Queries(c, eval, rl))
    requires ReplaysAll(c', matches, Selection(c, eval, rl), Queries(c, eval, rl))
    ensures Queries(c', eval, rl) == Queries(c, eval, rl)
    ensures Untroubled(c, eval, rl) ==> Untroubled(c', eval, rl)
  {
    hide TruthfulRun, Offer, ID;
    var qs := Queries(c, eval, rl);
    forall ref | ref in rl.references ensures c'.get(ref.referring) == c.get(ref.referring) {
      hide ReplaysAll;
      ReferringReplays(d, c, c', matches, world, eval, rl, ref);
    }
    ReferenceQueriesReplay(c, c', eval, rl.references);
    forall q | q in qs ensures QueryErrors(c', q) == [] {
      var namespaces :| Replays(c', matches, Selection(c, eval, rl), q, namespaces);
    }
  }

  /** If the second client replays every read of an error-free truthful run, the second run makes the same reads,
      reports no error and selects the same resources, contents and order included. */
  lemma ReplayedSelection(
    d: Discovery, c: Client, c': Client, matches: LabelMatch, world: set<ObjectResource>, eval: PathEval,
    rl: ResourceList)
    requires Coherent(d, world) && Truthful(c, matches, world, Queries(c, eval, rl)) && Errors(c, eval, rl) == []
    requires ReplaysAll(c', matches, Selection(c, eval, rl), Queries(c, eval, rl))
    ensures Errors(c', eval, rl) == []
    ensures Selection(c', eval, rl) == Selection(c, eval, rl)
  {
    hide ID, Offer, ReplaysAll, Queries, Errors, Coherent, Truthful;
    var qs := Queries(c, eval, rl);
    NoErrorsExactly(c, eval, rl);
    assert TruthfulRun(d, c, matches, world, qs);
    ReplayedReads(d, c, c', matches, world, eval, rl);
    NoErrorsExactly(c', eval, rl);
    ReplayPrefix(d, c, c', matches, world, qs, |qs|);
    assert qs[..|qs|] == qs;
  }
}
