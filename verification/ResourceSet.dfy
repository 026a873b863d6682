/** resource.go: the insertion-ordered set of resources that collects a selection. */
module ResourceSet {
  import opened Seqs
  import opened Dedup
  import opened Kube

  function NonNil(xs: seq<Option<ObjectResource>>): seq<ObjectResource>
  {
    if xs == [] then []
    else NonNil(xs[..|xs| - 1]) + if xs[|xs| - 1].Some? then [xs[|xs| - 1].value] else []
  }

  lemma {:induction false} NonNilAppend(a: seq<Option<ObjectResource>>, b: seq<Option<ObjectResource>>)
    ensures NonNil(a + b) == NonNil(a) + NonNil(b)
  {
    if b == [] {
      assert a + b == a;
    } else {
      assert (a + b)[..|a + b| - 1] == a + b[..|b| - 1];
      NonNilAppend(a, b[..|b| - 1]);
    }
  }

  lemma NonNilStep(xs: seq<Option<ObjectResource>>, i: nat, start: seq<ObjectResource>)
    requires i < |xs|
    ensures start + NonNil(xs[..i + 1]) ==
            start + NonNil(xs[..i]) + if xs[i].Some? then [xs[i].value] else []
  {
    assert xs[..i + 1][..i] == xs[..i];
  }

  class UniqueResourceSet {
    var seen: set<string>
    var resources: seq<ObjectResource>

    ghost predicate Valid()
      reads this
    {
      seen == Keys(resources, ID) && DistinctKeys(resources, ID)
    }

    constructor (initial: seq<Option<ObjectResource>>)
      ensures Valid()
      ensures resources == FirstOccurrences(NonNil(initial), ID)
    {
      seen, resources := {}, [];
      new;
      Insert(initial);
      assert [] + NonNil(initial) == NonNil(initial);
    }

    /** Nil entries and entries whose ID is already present are skipped, the others appended. */
    method Insert(batch: seq<Option<ObjectResource>>)
      requires Valid()
      modifies this
      ensures Valid()
      ensures resources == FirstOccurrences(old(resources) + NonNil(batch), ID)
    {
      ghost var history := resources;
      FirstOccurrencesIdempotent(resources, ID);
      var i := 0;
      while i < |batch|
        invariant 0 <= i <= |batch|
        invariant Valid()
        invariant history == old(resources) + NonNil(batch[..i])
        invariant resources == FirstOccurrences(history, ID)
      {
        NonNilStep(batch, i, old(resources));
        if batch[i].Some? {
          InsertOne(batch[i].value, history);
          history := history + [batch[i].value];
        }
        i := i + 1;
      }
      assert batch[..i] == batch;
    }

    /** The loop body of `Insert`; `history` is all that was offered before. */
    method InsertOne(resource: ObjectResource, ghost history: seq<ObjectResource>)
      requires Valid()
      requires resources == FirstOccurrences(history, ID)
      modifies this
      ensures Valid()
      ensures resources == FirstOccurrences(history + [resource], ID)
    {
      FirstOccurrencesSet(history, ID);
      FirstOccurrencesStep(history, resource, ID);
      if ID(resource) !in seen {
        FirstOccurrencesSet(history + [resource], ID);
        KeysAppend(resources, [resource], ID);
        resources := resources + [resource];
        seen := seen + {ID(resource)};
      }
    }

    method List() returns (r: seq<ObjectResource>)
      ensures r == resources
    {
      r := resources;
    }
  }

  /** However the inserts are batched, the set ends with the first occurrences of all non-nil inserts. */
  lemma {:induction false} BatchingIsInvisible(
    batches: seq<seq<Option<ObjectResource>>>, states: seq<seq<ObjectResource>>)
    requires |states| == |batches| + 1 && states[0] == []
    requires forall i :: 0 <= i < |batches| ==>
      states[i + 1] == FirstOccurrences(states[i] + NonNil(batches[i]), ID)
    ensures states[|batches|] == FirstOccurrences(NonNil(Flat(batches)), ID)
  {
    var n := |batches|;
    if n > 0 {
      BatchingIsInvisible(batches[..n - 1], states[..n]);
      var before := NonNil(Flat(batches[..n - 1]));
      FirstOccurrencesBatch(before, NonNil(batches[n - 1]), ID);
      NonNilAppend(Flat(batches[..n - 1]), batches[n - 1]);
    }
  }
}
