/** The order of a selection: exact ids, then label selections, then references, each as listed. */
module SelectionOrder {
  import opened Seqs
  import opened Dedup
  import opened Kube
  import opened Prune

  lemma {:induction false} OfferAllAppend(c: Client, a: seq<Query>, b: seq<Query>)
    ensures OfferAll(c, a + b) == OfferAll(c, a) + OfferAll(c, b)
  {
    hide Offer;
    if b == [] {
      assert a + b == a;
    } else {
      assert (a + b)[..|a + b| - 1] == a + b[..|b| - 1];
      OfferAllAppend(c, a, b[..|b| - 1]);
    }
  }

  lemma {:induction false} ReferenceQueriesAppend(
    c: Client, eval: PathEval, a: seq<ResourceReference>, b: seq<ResourceReference>)
    ensures ReferenceQueries(c, eval, a + b) == ReferenceQueries(c, eval, a) + ReferenceQueries(c, eval, b)
  {
    hide ReadsOf;
    if b == [] {
      assert a + b == a;
    } else {
      assert (a + b)[..|a + b| - 1] == a + b[..|b| - 1];
      ReferenceQueriesAppend(c, eval, a, b[..|b| - 1]);
    }
  }

  lemma MoreReads(c: Client, a: seq<Query>, b: seq<Query>)
    ensures FirstOccurrences(OfferAll(c, a), ID) <= FirstOccurrences(OfferAll(c, a + b), ID)
  {
    hide FirstOccurrences, OfferAll, ID;
    OfferAllAppend(c, a, b);
    var rest := FirstOccurrencesPrefix(OfferAll(c, a), OfferAll(c, b), ID);
  }

  /** The reference without its targets. */
  function Bare(ref: ResourceReference): ResourceReference
  {
    ref.(implicit := None)
  }

  /** The reads come in the order of the three lists, and a referring resource is read before its targets. */
  lemma ReadsInOrder(c: Client, eval: PathEval, rl: ResourceList, i: nat, j: nat, k: nat)
    requires i <= |rl.exact| && j <= |rl.labelSelected| && k < |rl.references|
    ensures
      var some := Queries(c, eval, ResourceList(rl.exact[..i], [], []));
      var more := Queries(c, eval, ResourceList(rl.exact, rl.labelSelected[..j], []));
      var bare := Queries(c, eval,
        ResourceList(rl.exact, rl.labelSelected, rl.references[..k] + [Bare(rl.references[k])]));
      var last := Queries(c, eval, ResourceList(rl.exact, rl.labelSelected, rl.references[..k + 1]));
      some <= more <= bare <= last <= Queries(c, eval, rl)
  {
    hide TargetNames;
    var exact, labelled := GetQueries(rl.exact), ListQueries(rl.labelSelected);
    var refs := rl.references;
    assert exact == GetQueries(rl.exact[..i]) + GetQueries(rl.exact[i..]);
    assert labelled == ListQueries(rl.labelSelected[..j]) + ListQueries(rl.labelSelected[j..]);
    assert refs[..k + 1] + refs[k + 1..] == refs && refs[..k] + [refs[k]] == refs[..k + 1];
    ReferenceQueriesAppend(c, eval, refs[..k + 1], refs[k + 1..]);
    assert (refs[..k] + [refs[k]])[..k] == refs[..k] && (refs[..k] + [Bare(refs[k])])[..k] == refs[..k];
    assert ReadsOf(c, eval, Bare(refs[k])) == [GetQuery(refs[k].referring)];
    assert ReadsOf(c, eval, refs[k]) ==
           [GetQuery(refs[k].referring)] + TargetQueries(refs[k], TargetNames(c, eval, refs[k]));
  }

  /** A selection is ordered as the list that calls for it. What a list selects, a longer one selects first: more exact
      ids only append, then label selections do, then references, and a referring resource precedes its targets. */
  lemma SelectionInOrder(c: Client, eval: PathEval, rl: ResourceList, i: nat, j: nat, k: nat)
    requires i <= |rl.exact| && j <= |rl.labelSelected| && k < |rl.references|
    ensures
      var some := Selection(c, eval, ResourceList(rl.exact[..i], [], []));
      var more := Selection(c, eval, ResourceList(rl.exact, rl.labelSelected[..j], []));
      var bare :=
        Selection(c, eval, ResourceList(rl.exact, rl.labelSelected, rl.references[..k] + [Bare(rl.references[k])]));
      var last := Selection(c, eval, ResourceList(rl.exact, rl.labelSelected, rl.references[..k + 1]));
      some <= more <= bare <= last <= Selection(c, eval, rl)
  {
    hide Queries, FirstOccurrences, OfferAll, ID, Bare;
    ReadsInOrder(c, eval, rl, i, j, k);
    var some := Queries(c, eval, ResourceList(rl.exact[..i], [], []));
    var more := Queries(c, eval, ResourceList(rl.exact, rl.labelSelected[..j], []));
    var bare :=
      Queries(c, eval, ResourceList(rl.exact, rl.labelSelected, rl.references[..k] + [Bare(rl.references[k])]));
    var last := Queries(c, eval, ResourceList(rl.exact, rl.labelSelected, rl.references[..k + 1]));
    LongerReads(c, some, more);
    LongerReads(c, more, bare);
    LongerReads(c, bare, last);
    LongerReads(c, last, Queries(c, eval, rl));
  }

  lemma LongerReads(c: Client, a: seq<Query>, b: seq<Query>)
    requires a <= b
    ensures FirstOccurrences(OfferAll(c, a), ID) <= FirstOccurrences(OfferAll(c, b), ID)
  {
    hide FirstOccurrences, OfferAll, ID;
    assert b == a + b[|a|..];
    MoreReads(c, a, b[|a|..]);
  }

  /** The content of a selection that is nothing but its offers. */
  lemma OneQuery(c: Client, q: Query)
    ensures OfferAll(c, [q]) == Offer(c, q)
  {
    assert [q][..0] == [];
  }

  /** Objects as resources of a type, in order. */
  function AsListed(gvr: GVR, os: seq<Object>): seq<ObjectResource>
  {
    seq(|os|, i requires 0 <= i < |os| => Resource("", gvr, os[i]))
  }

  /** A listing of different resources alone is selected as it is listed. */
  lemma ListedInOrder(c: Client, eval: PathEval, sel: LabelSelected, os: seq<Object>)
    requires c.list(sel) == Got(os) && DistinctKeys(AsListed(sel.resourceType, os), ID)
    ensures Selection(c, eval, ResourceList([], [sel], [])) == AsListed(sel.resourceType, os)
  {
    hide ID, FirstOccurrences, DistinctKeys;
    assert Queries(c, eval, ResourceList([], [sel], [])) == [ListQuery(sel)];
    OneQuery(c, ListQuery(sel));
    assert Offer(c, ListQuery(sel)) == AsListed(sel.resourceType, os);
    FirstOccurrencesIdempotent(AsListed(sel.resourceType, os), ID);
  }

  /** What a read of a present target gives. */
  function TargetRead(c: Client, t: ImplicitReference, name: string): Option<ObjectResource>
  {
    var id := ExactResourceID(t.resourceType, t.namespace, name);
    if c.get(id).Got? then Some(Resource("", t.resourceType, c.get(id).value)) else None
  }

  lemma {:induction false} TargetsOffer(c: Client, ref: ResourceReference, names: seq<string>)
    requires ref.implicit.Some?
    requires forall i :: 0 <= i < |names| ==> TargetRead(c, ref.implicit.value, names[i]).Some?
    ensures OfferAll(c, TargetQueries(ref, names)) ==
            seq(|names|, i requires 0 <= i < |names| => TargetRead(c, ref.implicit.value, names[i]).value)
  {
    if names != [] {
      var n := |names| - 1;
      assert TargetQueries(ref, names)[..n] == TargetQueries(ref, names[..n]);
      TargetsOffer(c, ref, names[..n]);
    }
  }

  /** The different present targets of one reference are selected behind it, in the order in which its path names
      them. */
  lemma TargetsInOrder(
    c: Client, eval: PathEval, ref: ResourceReference, o: Object, names: seq<string>, v: PathValue)
    requires ref.implicit.Some? && c.get(ref.referring) == Got(o) && eval(ref.implicit.value.path, o) == v
    requires v == Texts(names) || v == Values(names) || (|names| == 1 && v == Text(names[0]))
    requires forall i :: 0 <= i < |names| ==> TargetRead(c, ref.implicit.value, names[i]).Some?
    requires DistinctKeys(
               [Resource("", ref.referring.resourceType, o)] +
               seq(|names|, i requires 0 <= i < |names| => TargetRead(c, ref.implicit.value, names[i]).value), ID)
    ensures Selection(c, eval, ResourceList([], [], [ref])) ==
            [Resource("", ref.referring.resourceType, o)] +
            seq(|names|, i requires 0 <= i < |names| => TargetRead(c, ref.implicit.value, names[i]).value)
  {
    hide ID, FirstOccurrences, DistinctKeys, TargetQueries;
    var q := GetQuery(ref.referring);
    assert [ref][..0] == [] && TargetNames(c, eval, ref) == names;
    assert ReferenceQueries(c, eval, [ref]) == ReferenceQueries(c, eval, [ref][..0]) + ReadsOf(c, eval, ref);
    assert Queries(c, eval, ResourceList([], [], [ref])) == [q] + TargetQueries(ref, names);
    OfferAllAppend(c, [q], TargetQueries(ref, names));
    OneQuery(c, q);
    TargetsOffer(c, ref, names);
    FirstOccurrencesIdempotent(OfferAll(c, [q] + TargetQueries(ref, names)), ID);
  }
}
