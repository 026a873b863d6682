/** prune_mustgather.go: selecting, from whatever a client can read, the resources an operator asks for. */
module Prune {
  import opened Dedup
  import opened Kube
  import opened ResourceSet

  datatype ExactResourceID = ExactResourceID(resourceType: GVR, namespace: string, name: string)

  datatype LabelSelected = LabelSelected(resourceType: GVR, namespace: string, selector: string)

  datatype ImplicitReference = ImplicitReference(resourceType: GVR, namespace: string, path: string)

  /** Only the implicit form has an effect; a reference of another kind still selects its referring resource. */
  datatype ResourceReference = ResourceReference(referring: ExactResourceID, implicit: Option<ImplicitReference>)

  datatype ResourceList = ResourceList(
    exact: seq<ExactResourceID>, labelSelected: seq<LabelSelected>, references: seq<ResourceReference>)

  /** What evaluating a JSON path on an object can give; `Values` holds the already formatted elements. */
  datatype PathValue =
    | ParseError
    | EvalError
    | Text(s: string)
    | Texts(ss: seq<string>)
    | Values(vs: seq<string>)
    | OtherType

  type PathEval = (string, Object) -> PathValue

  function Names(v: PathValue): seq<string>
  {
    match v
    case Text(s) => [s]
    case Texts(ss) => ss
    case Values(vs) => vs
    case _ => []
  }

  datatype Reply<+T> = Got(value: T) | NotFound | Failed

  datatype Client = Client(get: ExactResourceID -> Reply<Object>, list: LabelSelected -> Reply<seq<Object>>)

  datatype PruneError =
    | LookupFailed(id: ExactResourceID)
    | ListFailed(sel: LabelSelected)
    | ReferringFailed(ref: ResourceReference)
    | PathParseFailed(ref: ResourceReference)
    | PathEvalFailed(ref: ResourceReference)
    | PathUnexpectedType(ref: ResourceReference)

  /** One read of the cluster. */
  datatype Query = GetQuery(id: ExactResourceID) | ListQuery(sel: LabelSelected)

  function Wrap(gvr: GVR, o: Object): ObjectResource
  {
    Resource("", gvr, o)
  }

  function WrapAll(gvr: GVR, os: seq<Object>): seq<ObjectResource>
  {
    seq(|os|, i requires 0 <= i < |os| => Wrap(gvr, os[i]))
  }

  /** The resources a read contributes; a failed or empty read contributes none. */
  function Offer(c: Client, q: Query): seq<ObjectResource>
  {
    match q
    case GetQuery(id) => (match c.get(id) case Got(o) => [Wrap(id.resourceType, o)] case _ => [])
    case ListQuery(sel) => (match c.list(sel) case Got(os) => WrapAll(sel.resourceType, os) case _ => [])
  }

  function OfferAll(c: Client, qs: seq<Query>): seq<ObjectResource>
  {
    if qs == [] then [] else OfferAll(c, qs[..|qs| - 1]) + Offer(c, qs[|qs| - 1])
  }

  lemma OfferAllStep(c: Client, qs: seq<Query>, q: Query)
    ensures OfferAll(c, qs + [q]) == OfferAll(c, qs) + Offer(c, q)
  {
    assert (qs + [q])[..|qs|] == qs;
  }

  lemma {:induction false} OfferAllIn(c: Client, qs: seq<Query>)
    ensures forall r :: r in OfferAll(c, qs) <==> exists i :: 0 <= i < |qs| && r in Offer(c, qs[i])
  {
    if qs != [] {
      var n := |qs| - 1;
      OfferAllIn(c, qs[..n]);
      forall r
        ensures r in OfferAll(c, qs) <==> exists i :: 0 <= i < |qs| && r in Offer(c, qs[i])
      {
        if r in OfferAll(c, qs[..n]) {
          var i :| 0 <= i < n && r in Offer(c, qs[..n][i]);
          assert r in Offer(c, qs[i]);
        }
        if i :| 0 <= i < |qs| && r in Offer(c, qs[i]) {
          if i < n { assert r in Offer(c, qs[..n][i]); }
        }
      }
    }
  }

  function Target(ref: ImplicitReference, name: string): ExactResourceID
  {
    ExactResourceID(ref.resourceType, ref.namespace, name)
  }

  /** The names found by a reference's path in its referring resource. */
  function TargetNames(c: Client, eval: PathEval, ref: ResourceReference): seq<string>
  {
    if c.get(ref.referring).Got? && ref.implicit.Some?
    then Names(eval(ref.implicit.value.path, c.get(ref.referring).value))
    else []
  }

  function GetQueries(ids: seq<ExactResourceID>): seq<Query>
  {
    seq(|ids|, i requires 0 <= i < |ids| => GetQuery(ids[i]))
  }

  function ListQueries(sels: seq<LabelSelected>): seq<Query>
  {
    seq(|sels|, i requires 0 <= i < |sels| => ListQuery(sels[i]))
  }

  function TargetQueries(ref: ResourceReference, names: seq<string>): seq<Query>
  {
    if ref.implicit.None? then []
    else seq(|names|, i requires 0 <= i < |names| => GetQuery(Target(ref.implicit.value, names[i])))
  }

  /** The reads one reference causes: the referring resource, then the targets it names. */
  function ReadsOf(c: Client, eval: PathEval, ref: ResourceReference): seq<Query>
  {
    [GetQuery(ref.referring)] + TargetQueries(ref, TargetNames(c, eval, ref))
  }

  function ReferenceQueries(c: Client, eval: PathEval, refs: seq<ResourceReference>): seq<Query>
  {
    if refs == [] then []
    else ReferenceQueries(c, eval, refs[..|refs| - 1]) + ReadsOf(c, eval, refs[|refs| - 1])
  }

  /** All reads of a pruning run, in order. References are followed one level. */
  function Queries(c: Client, eval: PathEval, rl: ResourceList): seq<Query>
  {
    GetQueries(rl.exact) + ListQueries(rl.labelSelected) + ReferenceQueries(c, eval, rl.references)
  }

  function Selection(c: Client, eval: PathEval, rl: ResourceList): seq<ObjectResource>
  {
    FirstOccurrences(OfferAll(c, Queries(c, eval, rl)), ID)
  }

  function QueryErrors(c: Client, q: Query): seq<PruneError>
  {
    match q
    case GetQuery(id) => if c.get(id).Failed? then [LookupFailed(id)] else []
    case ListQuery(sel) => if c.list(sel).Failed? then [ListFailed(sel)] else []
  }

  function QueriesErrors(c: Client, qs: seq<Query>): seq<PruneError>
  {
    if qs == [] then [] else QueriesErrors(c, qs[..|qs| - 1]) + QueryErrors(c, qs[|qs| - 1])
  }

  /** Errors raised by reading a referring resource and evaluating its path, before any target is read. */
  function PathErrors(c: Client, eval: PathEval, ref: ResourceReference): seq<PruneError>
  {
    match c.get(ref.referring)
    case Failed => [ReferringFailed(ref)]
    case NotFound => []
    case Got(o) =>
      if ref.implicit.None? then []
      else match eval(ref.implicit.value.path, o)
           case ParseError => [PathParseFailed(ref)]
           case EvalError => [PathEvalFailed(ref)]
           case OtherType => [PathUnexpectedType(ref)]
           case _ => []
  }

  function ErrorsOf(c: Client, eval: PathEval, ref: ResourceReference): seq<PruneError>
  {
    PathErrors(c, eval, ref) + QueriesErrors(c, TargetQueries(ref, TargetNames(c, eval, ref)))
  }

  function ReferenceErrors(c: Client, eval: PathEval, refs: seq<ResourceReference>): seq<PruneError>
  {
    if refs == [] then []
    else ReferenceErrors(c, eval, refs[..|refs| - 1]) + ErrorsOf(c, eval, refs[|refs| - 1])
  }

  function Errors(c: Client, eval: PathEval, rl: ResourceList): seq<PruneError>
  {
    QueriesErrors(c, GetQueries(rl.exact)) + QueriesErrors(c, ListQueries(rl.labelSelected)) +
    ReferenceErrors(c, eval, rl.references)
  }

  method GetExactResource(c: Client, id: ExactResourceID) returns (r: Reply<ObjectResource>)
    ensures r == match c.get(id)
                 case Got(o) => Got(Wrap(id.resourceType, o))
                 case NotFound => NotFound
                 case Failed => Failed
  {
    match c.get(id) {
      case Got(o) => r := Got(Wrap(id.resourceType, o));
      case NotFound => r := NotFound;
      case Failed => r := Failed;
    }
  }

  method GetResourcesByLabelSelector(c: Client, sel: LabelSelected) returns (r: Reply<seq<ObjectResource>>)
    ensures r == match c.list(sel)
                 case Got(os) => Got(WrapAll(sel.resourceType, os))
                 case NotFound => NotFound
                 case Failed => Failed
  {
    match c.list(sel) {
      case NotFound => r := NotFound;
      case Failed => r := Failed;
      case Got(os) =>
        var resources: seq<ObjectResource> := [];
        for i := 0 to |os|
          invariant resources == WrapAll(sel.resourceType, os)[..i]
        {
          resources := resources + [Wrap(sel.resourceType, os[i])];
        }
        assert WrapAll(sel.resourceType, os)[..|os|] == WrapAll(sel.resourceType, os);
        r := Got(resources);
    }
  }

  lemma {:induction false} NonNilSome(xs: seq<ObjectResource>)
    ensures NonNil(seq(|xs|, i requires 0 <= i < |xs| => Some(xs[i]))) == xs
  {
    if xs != [] {
      var n := |xs| - 1;
      NonNilSome(xs[..n]);
      var all := seq(|xs|, i requires 0 <= i < |xs| => Some(xs[i]));
      assert all[..n] == seq(n, i requires 0 <= i < n => Some(xs[..n][i]));
    }
  }

  /** Insert what a read returned; `asked` is every read before it. */
  method InsertOffer(
    instances: UniqueResourceSet, rs: seq<ObjectResource>, c: Client, ghost asked: seq<Query>, ghost q: Query)
    requires instances.Valid()
    requires instances.resources == FirstOccurrences(OfferAll(c, asked), ID)
    requires rs == Offer(c, q)
    modifies instances
    ensures instances.Valid()
    ensures instances.resources == FirstOccurrences(OfferAll(c, asked + [q]), ID)
  {
    var batch := seq(|rs|, i requires 0 <= i < |rs| => Some(rs[i]));
    assert NonNil(batch) == rs by { NonNilSome(rs); }
    ghost var before := OfferAll(c, asked);
    assert OfferAll(c, asked + [q]) == before + rs by { OfferAllStep(c, asked, q); }
    FirstOccurrencesBatch(before, rs, ID);
    instances.Insert(batch);
  }

  lemma SkipOffer(c: Client, asked: seq<Query>, q: Query)
    requires Offer(c, q) == []
    ensures OfferAll(c, asked + [q]) == OfferAll(c, asked)
  {
    OfferAllStep(c, asked, q);
  }

  lemma QueriesErrorsStep(c: Client, qs: seq<Query>, i: nat)
    requires i < |qs|
    ensures QueriesErrors(c, qs[..i + 1]) == QueriesErrors(c, qs[..i]) + QueryErrors(c, qs[i])
    ensures qs[..i + 1] == qs[..i] + [qs[i]]
  {
    assert qs[..i + 1][..i] == qs[..i];
  }

  /** The loop over exact ids, used for the listed ids and for the targets of one reference. */
  method CollectExact(instances: UniqueResourceSet, c: Client, ids: seq<ExactResourceID>, ghost asked: seq<Query>)
    returns (errs: seq<PruneError>)
    requires instances.Valid()
    requires instances.resources == FirstOccurrences(OfferAll(c, asked), ID)
    modifies instances
    ensures instances.Valid()
    ensures instances.resources == FirstOccurrences(OfferAll(c, asked + GetQueries(ids)), ID)
    ensures errs == QueriesErrors(c, GetQueries(ids))
  {
    errs := [];
    ghost var qs := GetQueries(ids);
    ghost var done := asked;
    for i := 0 to |ids|
      invariant instances.Valid()
      invariant done == asked + qs[..i]
      invariant instances.resources == FirstOccurrences(OfferAll(c, done), ID)
      invariant errs == QueriesErrors(c, qs[..i])
    {
      QueriesErrorsStep(c, qs, i);
      var found := GetExactResource(c, ids[i]);
      match found {
        case NotFound => SkipOffer(c, done, qs[i]);
        case Failed =>
          SkipOffer(c, done, qs[i]);
          errs := errs + [LookupFailed(ids[i])];
        case Got(resource) => InsertOffer(instances, [resource], c, done, qs[i]);
      }
      done := done + [qs[i]];
    }
    assert qs[..|ids|] == qs;
  }

  method CollectLabelSelected(
    instances: UniqueResourceSet, c: Client, sels: seq<LabelSelected>, ghost asked: seq<Query>)
    returns (errs: seq<PruneError>)
    requires instances.Valid()
    requires instances.resources == FirstOccurrences(OfferAll(c, asked), ID)
    modifies instances
    ensures instances.Valid()
    ensures instances.resources == FirstOccurrences(OfferAll(c, asked + ListQueries(sels)), ID)
    ensures errs == QueriesErrors(c, ListQueries(sels))
  {
    errs := [];
    ghost var qs := ListQueries(sels);
    ghost var done := asked;
    for i := 0 to |sels|
      invariant instances.Valid()
      invariant done == asked + qs[..i]
      invariant instances.resources == FirstOccurrences(OfferAll(c, done), ID)
      invariant errs == QueriesErrors(c, qs[..i])
    {
      QueriesErrorsStep(c, qs, i);
      var found := GetResourcesByLabelSelector(c, sels[i]);
      match found {
        case NotFound => SkipOffer(c, done, qs[i]);
        case Failed =>
          SkipOffer(c, done, qs[i]);
          errs := errs + [ListFailed(sels[i])];
        case Got(resources) => InsertOffer(instances, resources, c, done, qs[i]);
      }
      done := done + [qs[i]];
    }
    assert qs[..|sels|] == qs;
  }

  /** One reference: the referring resource, its path, and the targets named there. */
  method CollectReference(
    instances: UniqueResourceSet, c: Client, eval: PathEval, ref: ResourceReference, ghost asked: seq<Query>)
    returns (errs: seq<PruneError>)
    requires instances.Valid()
    requires instances.resources == FirstOccurrences(OfferAll(c, asked), ID)
    modifies instances
    ensures instances.Valid()
    ensures instances.resources == FirstOccurrences(OfferAll(c, asked + ReadsOf(c, eval, ref)), ID)
    ensures errs == ErrorsOf(c, eval, ref)
  {
    hide FirstOccurrences, OfferAll;
    ghost var q := GetQuery(ref.referring);
    ghost var targets := TargetQueries(ref, TargetNames(c, eval, ref));
    ghost var done := asked + [q];
    assert done + targets == asked + ReadsOf(c, eval, ref);
    var found := GetExactResource(c, ref.referring);
    if !found.Got? {
      SkipOffer(c, asked, q);
      assert targets == [] && done + targets == done;
      return if found.Failed? then [ReferringFailed(ref)] else [];
    }
    InsertOffer(instances, [found.value], c, asked, q);
    if ref.implicit.None? {
      assert done + targets == done;
      return [];
    }
    var value := eval(ref.implicit.value.path, found.value.content);
    var pathErrs: seq<PruneError> := [];
    var names: seq<string> := [];
    match value {
      case ParseError => pathErrs := [PathParseFailed(ref)];
      case EvalError => pathErrs := [PathEvalFailed(ref)];
      case Text(s) => names := [s];
      case Texts(ss) => names := ss;
      case Values(vs) => names := vs;
      case OtherType => pathErrs := [PathUnexpectedType(ref)];
    }
    var ids := seq(|names|, i requires 0 <= i < |names| => Target(ref.implicit.value, names[i]));
    assert GetQueries(ids) == targets;
    var targetErrs := CollectExact(instances, c, ids, done);
    errs := pathErrs + targetErrs;
  }

  method CollectReferences(
    instances: UniqueResourceSet, c: Client, eval: PathEval, refs: seq<ResourceReference>, ghost asked: seq<Query>)
    returns (errs: seq<PruneError>)
    requires instances.Valid()
    requires instances.resources == FirstOccurrences(OfferAll(c, asked), ID)
    modifies instances
    ensures instances.Valid()
    ensures instances.resources == FirstOccurrences(OfferAll(c, asked + ReferenceQueries(c, eval, refs)), ID)
    ensures errs == ReferenceErrors(c, eval, refs)
  {
    errs := [];
    ghost var done := asked;
    for i := 0 to |refs|
      invariant instances.Valid()
      invariant done == asked + ReferenceQueries(c, eval, refs[..i])
      invariant instances.resources == FirstOccurrences(OfferAll(c, done), ID)
      invariant errs == ReferenceErrors(c, eval, refs[..i])
    {
      ReferenceStep(c, eval, refs, i, asked);
      var refErrs := CollectReference(instances, c, eval, refs[i], done);
      done := done + ReadsOf(c, eval, refs[i]);
      errs := errs + refErrs;
    }
    assert refs[..|refs|] == refs;
  }

  lemma ReferenceStep(c: Client, eval: PathEval, refs: seq<ResourceReference>, i: nat, asked: seq<Query>)
    requires i < |refs|
    ensures asked + ReferenceQueries(c, eval, refs[..i + 1]) ==
            asked + ReferenceQueries(c, eval, refs[..i]) + ReadsOf(c, eval, refs[i])
    ensures ReferenceErrors(c, eval, refs[..i + 1]) ==
            ReferenceErrors(c, eval, refs[..i]) + ErrorsOf(c, eval, refs[i])
  {
    assert refs[..i + 1][..i] == refs[..i];
  }

  method GetRequiredInputResourcesForResourceList(rl: ResourceList, c: Client, eval: PathEval)
    returns (selected: seq<ObjectResource>, errs: seq<PruneError>)
    ensures selected == Selection(c, eval, rl)
    ensures errs == Errors(c, eval, rl)
  {
    var instances := new UniqueResourceSet([]);
    var exactErrs := CollectExact(instances, c, rl.exact, []);
    ghost var exact := GetQueries(rl.exact);
    assert [] + exact == exact;
    var listErrs := CollectLabelSelected(instances, c, rl.labelSelected, exact);
    var refErrs := CollectReferences(instances, c, eval, rl.references, exact + ListQueries(rl.labelSelected));
    selected := instances.List();
    errs := exactErrs + listErrs + refErrs;
  }

  /** The value of a path names a target: it is the name, or a list that holds it. */
  predicate NamesTarget(v: PathValue, s: string)
  {
    v == Text(s) || (v.Texts? && s in v.ss) || (v.Values? && s in v.vs)
  }

  /** The id is that of a target which the reference's path names in its referring resource. */
  predicate IsTarget(c: Client, eval: PathEval, ref: ResourceReference, id: ExactResourceID)
  {
    && c.get(ref.referring).Got? && ref.implicit.Some?
    && id.resourceType == ref.implicit.value.resourceType && id.namespace == ref.implicit.value.namespace
    && NamesTarget(eval(ref.implicit.value.path, c.get(ref.referring).value), id.name)
  }

  /** The id is asked for: listed, as a referring resource, or as a target of one. */
  predicate Named(c: Client, eval: PathEval, rl: ResourceList, id: ExactResourceID)
  {
    || id in rl.exact
    || exists ref :: ref in rl.references && (id == ref.referring || IsTarget(c, eval, ref, id))
  }

  /** A read by name found `r`. */
  predicate Returns(c: Client, id: ExactResourceID, r: ObjectResource)
  {
    c.get(id).Got? && r == Resource("", id.resourceType, c.get(id).value)
  }

  /** A listing holds `r`. */
  predicate Lists(c: Client, sel: LabelSelected, r: ObjectResource)
  {
    c.list(sel).Got? && r.content in c.list(sel).value && r == Resource("", sel.resourceType, r.content)
  }

  /** `r` is asked for, by name or by label. */
  ghost predicate Wanted(c: Client, eval: PathEval, rl: ResourceList, r: ObjectResource)
  {
    || (exists id :: Named(c, eval, rl, id) && Returns(c, id, r))
    || (exists sel :: sel in rl.labelSelected && Lists(c, sel, r))
  }

  lemma OfferMeans(c: Client, q: Query, r: ObjectResource)
    ensures r in Offer(c, q) <==> match q case GetQuery(id) => Returns(c, id, r) case ListQuery(sel) => Lists(c, sel, r)
  {
    if q.ListQuery? && c.list(q.sel).Got? {
      var os := c.list(q.sel).value;
      if i :| 0 <= i < |os| && os[i] == r.content { assert WrapAll(q.sel.resourceType, os)[i].content == r.content; }
    }
  }

  lemma {:induction false} ReferenceQueriesIn(c: Client, eval: PathEval, refs: seq<ResourceReference>, q: Query)
    ensures q in ReferenceQueries(c, eval, refs) <==> exists i :: 0 <= i < |refs| && q in ReadsOf(c, eval, refs[i])
  {
    if refs != [] {
      var n := |refs| - 1;
      ReferenceQueriesIn(c, eval, refs[..n], q);
      if i :| 0 <= i < n && q in ReadsOf(c, eval, refs[i]) {
        assert refs[..n][i] == refs[i];
      }
      if i :| 0 <= i < n && q in ReadsOf(c, eval, refs[..n][i]) {
        assert refs[..n][i] == refs[i];
      }
    }
  }

  /** The targets that are read are those the path names. */
  lemma TargetsMean(c: Client, eval: PathEval, ref: ResourceReference, q: Query)
    ensures q in TargetQueries(ref, TargetNames(c, eval, ref)) <==> q.GetQuery? && IsTarget(c, eval, ref, q.id)
  {
    var names := TargetNames(c, eval, ref);
    var qs := TargetQueries(ref, names);
    if q in qs {
      var i :| 0 <= i < |qs| && qs[i] == q;
      assert names[i] in names;
    }
    if q.GetQuery? && IsTarget(c, eval, ref, q.id) {
      assert q.id.name in names;
      var i :| 0 <= i < |names| && names[i] == q.id.name;
      assert qs[i] == q;
    }
  }

  lemma ReferenceQueriesMean(c: Client, eval: PathEval, refs: seq<ResourceReference>, q: Query)
    ensures q in ReferenceQueries(c, eval, refs) <==>
            q.GetQuery? && exists ref :: ref in refs && (q.id == ref.referring || IsTarget(c, eval, ref, q.id))
  {
    hide IsTarget, TargetQueries, TargetNames, ReferenceQueries;
    ReferenceQueriesIn(c, eval, refs, q);
    if i :| 0 <= i < |refs| && q in ReadsOf(c, eval, refs[i]) {
      TargetsMean(c, eval, refs[i], q);
      assert refs[i] in refs;
    }
    if ref :| q.GetQuery? && ref in refs && (q.id == ref.referring || IsTarget(c, eval, ref, q.id)) {
      var i :| 0 <= i < |refs| && refs[i] == ref;
      TargetsMean(c, eval, ref, q);
      assert q in ReadsOf(c, eval, refs[i]);
    }
  }

  /** The reads are exactly those the resource list and the referring resources call for. */
  lemma QueriesMean(c: Client, eval: PathEval, rl: ResourceList, q: Query)
    ensures q in Queries(c, eval, rl) <==>
            match q case GetQuery(id) => Named(c, eval, rl, id) case ListQuery(sel) => sel in rl.labelSelected
  {
    hide ReferenceQueries, IsTarget;
    ReferenceQueriesMean(c, eval, rl.references, q);
    var exact, labelled := GetQueries(rl.exact), ListQueries(rl.labelSelected);
    if i :| 0 <= i < |rl.exact| && q == GetQuery(rl.exact[i]) { assert exact[i] == q; }
    if i :| 0 <= i < |rl.labelSelected| && q == ListQuery(rl.labelSelected[i]) { assert labelled[i] == q; }
    assert q in Queries(c, eval, rl) <==>
        q in exact || q in labelled || q in ReferenceQueries(c, eval, rl.references);
  }

  lemma QueriesOffer(c: Client, eval: PathEval, rl: ResourceList, r: ObjectResource)
    ensures r in OfferAll(c, Queries(c, eval, rl)) <==> Wanted(c, eval, rl, r)
  {
    hide Offer, OfferAll, Queries, Named, Returns, Lists;
    var qs := Queries(c, eval, rl);
    OfferAllIn(c, qs);
    if i :| 0 <= i < |qs| && r in Offer(c, qs[i]) {
      OfferMeans(c, qs[i], r);
      QueriesMean(c, eval, rl, qs[i]);
    }
    if Wanted(c, eval, rl, r) {
      var q := WantedIsQueried(c, eval, rl, r);
      var i :| 0 <= i < |qs| && qs[i] == q;
      assert r in Offer(c, qs[i]);
    }
  }

  lemma WantedIsQueried(c: Client, eval: PathEval, rl: ResourceList, r: ObjectResource) returns (q: Query)
    requires Wanted(c, eval, rl, r)
    ensures q in Queries(c, eval, rl) && r in Offer(c, q)
  {
    hide Offer, Queries, Named, Returns, Lists;
    if id :| Named(c, eval, rl, id) && Returns(c, id, r) {
      q := GetQuery(id);
    } else {
      var sel :| sel in rl.labelSelected && Lists(c, sel, r);
      q := ListQuery(sel);
    }
    OfferMeans(c, q, r);
    QueriesMean(c, eval, rl, q);
  }

  /** Pruning is sound and complete, error or not: every selected resource is wanted, every wanted resource's ID is
      selected, and no ID twice. */
  lemma SelectionSoundComplete(c: Client, eval: PathEval, rl: ResourceList)
    ensures forall r :: r in Selection(c, eval, rl) ==> Wanted(c, eval, rl, r)
    ensures forall r :: Wanted(c, eval, rl, r) ==> ID(r) in Keys(Selection(c, eval, rl), ID)
    ensures DistinctKeys(Selection(c, eval, rl), ID)
  {
    hide ID, Wanted;
    var offered := OfferAll(c, Queries(c, eval, rl));
    FirstOccurrencesSet(offered, ID);
    forall r | r in Selection(c, eval, rl) ensures Wanted(c, eval, rl, r) { QueriesOffer(c, eval, rl, r); }
    forall r | Wanted(c, eval, rl, r) ensures ID(r) in Keys(Selection(c, eval, rl), ID) {
      QueriesOffer(c, eval, rl, r);
      assert ID(r) in Keys(offered, ID);
    }
  }

  predicate AllSucceed(c: Client, qs: seq<Query>)
  {
    forall q :: q in qs ==> QueryErrors(c, q) == []
  }

  /** What it takes for a run to report no error: no read fails, and every path found in a present referring
      resource parses, evaluates, and gives a value of a known type. A missing resource is not an error. */
  predicate Untroubled(c: Client, eval: PathEval, rl: ResourceList)
  {
    && AllSucceed(c, Queries(c, eval, rl))
    && forall ref :: ref in rl.references ==> PathErrors(c, eval, ref) == []
  }

  lemma NothingFails(c: Client)
    ensures AllSucceed(c, [])
  {
  }

  lemma AllSucceedAppend(c: Client, a: seq<Query>, b: seq<Query>)
    ensures AllSucceed(c, a + b) <==> AllSucceed(c, a) && AllSucceed(c, b)
  {
    assert forall q :: q in a + b <==> q in a || q in b;
  }

  lemma {:induction false} QueriesErrorsEmpty(c: Client, qs: seq<Query>)
    ensures QueriesErrors(c, qs) == [] <==> AllSucceed(c, qs)
  {
    if qs != [] {
      var init, last := qs[..|qs| - 1], qs[|qs| - 1];
      QueriesErrorsEmpty(c, init);
      AllSucceedAppend(c, init, [last]);
      assert qs == init + [last];
      assert AllSucceed(c, [last]) <==> QueryErrors(c, last) == [];
    }
  }

  lemma ErrorsOfEmpty(c: Client, eval: PathEval, ref: ResourceReference)
    ensures ErrorsOf(c, eval, ref) == [] <==> PathErrors(c, eval, ref) == [] && AllSucceed(c, ReadsOf(c, eval, ref))
  {
    var targets := TargetQueries(ref, TargetNames(c, eval, ref));
    QueriesErrorsEmpty(c, targets);
    AllSucceedAppend(c, [GetQuery(ref.referring)], targets);
    assert PathErrors(c, eval, ref) == [] ==> AllSucceed(c, [GetQuery(ref.referring)]);
  }

  lemma {:induction false} ReferenceErrorsEmpty(c: Client, eval: PathEval, refs: seq<ResourceReference>)
    ensures ReferenceErrors(c, eval, refs) == [] <==>
            && AllSucceed(c, ReferenceQueries(c, eval, refs))
            && forall ref :: ref in refs ==> PathErrors(c, eval, ref) == []
  {
    hide AllSucceed, ErrorsOf;
    if refs == [] {
      NothingFails(c);
    } else {
      var init, last := refs[..|refs| - 1], refs[|refs| - 1];
      ReferenceErrorsEmpty(c, eval, init);
      ErrorsOfEmpty(c, eval, last);
      AllSucceedAppend(c, ReferenceQueries(c, eval, init), ReadsOf(c, eval, last));
      assert refs == init + [last];
    }
  }

  lemma NoErrorsMeansUntroubled(c: Client, eval: PathEval, rl: ResourceList)
    ensures Errors(c, eval, rl) == [] <==> Untroubled(c, eval, rl)
  {
    var exact, labelled := GetQueries(rl.exact), ListQueries(rl.labelSelected);
    QueriesErrorsEmpty(c, exact);
    QueriesErrorsEmpty(c, labelled);
    ReferenceErrorsEmpty(c, eval, rl.references);
    AllSucceedAppend(c, exact, labelled);
    AllSucceedAppend(c, exact + labelled, ReferenceQueries(c, eval, rl.references));
  }

  /** What a run that ends with the error met. A failed read is reported as a lookup, a listing, or a referring resource
      that could not be read; a path can fail to parse, fail to evaluate, or give something that names nothing. */
  ghost predicate Met(c: Client, eval: PathEval, rl: ResourceList, e: PruneError)
  {
    match e
    case LookupFailed(id) =>
      c.get(id).Failed? && (id in rl.exact || exists ref :: ref in rl.references && IsTarget(c, eval, ref, id))
    case ListFailed(sel) => sel in rl.labelSelected && c.list(sel).Failed?
    case ReferringFailed(ref) => ref in rl.references && c.get(ref.referring).Failed?
    case PathParseFailed(ref) => ref in rl.references && PathGives(c, eval, ref, ParseError)
    case PathEvalFailed(ref) => ref in rl.references && PathGives(c, eval, ref, EvalError)
    case PathUnexpectedType(ref) => ref in rl.references && PathGives(c, eval, ref, OtherType)
  }

  /** The reference's path gives the value on its referring resource. */
  predicate PathGives(c: Client, eval: PathEval, ref: ResourceReference, v: PathValue)
  {
    c.get(ref.referring).Got? && ref.implicit.Some? && eval(ref.implicit.value.path, c.get(ref.referring).value) == v
  }

  lemma {:induction false} QueriesErrorsIn(c: Client, qs: seq<Query>, e: PruneError)
    ensures e in QueriesErrors(c, qs) <==>
            || (e.LookupFailed? && GetQuery(e.id) in qs && c.get(e.id).Failed?)
            || (e.ListFailed? && ListQuery(e.sel) in qs && c.list(e.sel).Failed?)
  {
    if qs != [] {
      QueriesErrorsIn(c, qs[..|qs| - 1], e);
      assert qs == qs[..|qs| - 1] + [qs[|qs| - 1]];
    }
  }

  lemma ErrorsOfMean(c: Client, eval: PathEval, ref: ResourceReference, e: PruneError)
    ensures e in ErrorsOf(c, eval, ref) <==>
            || (e.LookupFailed? && c.get(e.id).Failed? && IsTarget(c, eval, ref, e.id))
            || (e == ReferringFailed(ref) && c.get(ref.referring).Failed?)
            || (e == PathParseFailed(ref) && PathGives(c, eval, ref, ParseError))
            || (e == PathEvalFailed(ref) && PathGives(c, eval, ref, EvalError))
            || (e == PathUnexpectedType(ref) && PathGives(c, eval, ref, OtherType))
  {
    hide TargetQueries, TargetNames, IsTarget;
    var targets := TargetQueries(ref, TargetNames(c, eval, ref));
    QueriesErrorsIn(c, targets, e);
    if e.LookupFailed? { TargetsMean(c, eval, ref, GetQuery(e.id)); }
    if e.ListFailed? { TargetsMean(c, eval, ref, ListQuery(e.sel)); }
  }

  lemma {:induction false} ReferenceErrorsIn(c: Client, eval: PathEval, refs: seq<ResourceReference>, e: PruneError)
    ensures e in ReferenceErrors(c, eval, refs) <==> exists ref :: ref in refs && e in ErrorsOf(c, eval, ref)
  {
    hide ErrorsOf;
    if refs != [] {
      var init, last := refs[..|refs| - 1], refs[|refs| - 1];
      ReferenceErrorsIn(c, eval, init, e);
      assert refs == init + [last];
    }
  }

  /** The errors of a run are exactly what it met. */
  lemma ErrorsExactly(c: Client, eval: PathEval, rl: ResourceList, e: PruneError)
    ensures e in Errors(c, eval, rl) <==> Met(c, eval, rl, e)
  {
    hide ErrorsOf, IsTarget, PathGives;
    var exact, labelled := GetQueries(rl.exact), ListQueries(rl.labelSelected);
    QueriesErrorsIn(c, exact, e);
    QueriesErrorsIn(c, labelled, e);
    ReferenceErrorsIn(c, eval, rl.references, e);
    forall ref { ErrorsOfMean(c, eval, ref, e); }
    if i :| 0 <= i < |rl.exact| && e == LookupFailed(rl.exact[i]) { assert exact[i] == GetQuery(rl.exact[i]); }
    if i :| 0 <= i < |rl.labelSelected| && e == ListFailed(rl.labelSelected[i]) {
      assert labelled[i] == ListQuery(rl.labelSelected[i]);
    }
  }

  /** What it takes for a run to report no error: no read fails that is called for, and every path found in a present
      referring resource names something. A missing resource is not an error. */
  ghost predicate Answerable(c: Client, eval: PathEval, rl: ResourceList)
  {
    && (forall id :: Named(c, eval, rl, id) ==> !c.get(id).Failed?)
    && (forall sel :: sel in rl.labelSelected ==> !c.list(sel).Failed?)
    && forall ref :: ref in rl.references ==>
      !PathGives(c, eval, ref, ParseError) && !PathGives(c, eval, ref, EvalError) && !PathGives(c, eval, ref, OtherType)
  }

  /** Errors are reported exactly when a read failed or a path could not be used. */
  lemma NoErrorsExactly(c: Client, eval: PathEval, rl: ResourceList)
    ensures Errors(c, eval, rl) == [] <==> Answerable(c, eval, rl)
    ensures Errors(c, eval, rl) == [] <==> Untroubled(c, eval, rl)
  {
    hide Errors, IsTarget, PathGives;
    NoErrorsMeansUntroubled(c, eval, rl);
    forall e { ErrorsExactly(c, eval, rl, e); }
    if Errors(c, eval, rl) == [] {
      forall id | Named(c, eval, rl, id) ensures !c.get(id).Failed? {
        if c.get(id).Failed? { NamedIsMet(c, eval, rl, id); }
      }
      forall sel | sel in rl.labelSelected ensures !c.list(sel).Failed? {
        assert Met(c, eval, rl, ListFailed(sel)) ==> ListFailed(sel) in Errors(c, eval, rl);
      }
      forall ref | ref in rl.references
        ensures !PathGives(c, eval, ref, ParseError) && !PathGives(c, eval, ref, EvalError)
        ensures !PathGives(c, eval, ref, OtherType)
      {
        assert !Met(c, eval, rl, PathParseFailed(ref)) && !Met(c, eval, rl, PathEvalFailed(ref));
        assert !Met(c, eval, rl, PathUnexpectedType(ref));
      }
    } else {
      var e := Errors(c, eval, rl)[0];
      assert Met(c, eval, rl, e);
    }
  }

  lemma NamedIsMet(c: Client, eval: PathEval, rl: ResourceList, id: ExactResourceID)
    requires Named(c, eval, rl, id) && c.get(id).Failed?
    ensures exists e :: Met(c, eval, rl, e)
  {
    hide IsTarget, PathGives;
    if ref :| ref in rl.references && id == ref.referring {
      assert Met(c, eval, rl, ReferringFailed(ref));
    } else {
      assert Met(c, eval, rl, LookupFailed(id));
    }
  }
}
