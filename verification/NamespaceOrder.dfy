/** Listing namespace by namespace: what it does to the order of a selection. */
module NamespaceOrder {
  import opened Seqs
  import opened GoStrings
  import opened Kube

  function InNamespace(n: string): ObjectResource -> bool
  {
    (r: ObjectResource) => r.content.namespace == n
  }

  /** The resources of the given namespaces, one namespace after the other. */
  function ByNamespace(xs: seq<ObjectResource>, namespaces: seq<string>): seq<ObjectResource>
  {
    if namespaces == [] then []
    else ByNamespace(xs, namespaces[..|namespaces| - 1]) + Filter(xs, InNamespace(namespaces[|namespaces| - 1]))
  }

  predicate NamespaceSorted(xs: seq<ObjectResource>)
  {
    forall i, j :: 0 <= i < j < |xs| ==> Compare(xs[i].content.namespace, xs[j].content.namespace) <= 0
  }

  function Both<T>(p: T -> bool, q: T -> bool): T -> bool
  {
    x => p(x) && q(x)
  }

  lemma FilterCommutes<T(!new)>(xs: seq<T>, p: T -> bool, q: T -> bool)
    ensures Filter(Filter(xs, p), q) == Filter(Filter(xs, q), p)
  {
    FilterTwice(xs, p, q, Both(p, q));
    FilterTwice(xs, q, p, Both(p, q));
  }

  /** Selecting from a listing is listing the selected. */
  lemma {:induction false} FilterByNamespace(
    xs: seq<ObjectResource>, namespaces: seq<string>, p: ObjectResource -> bool)
    ensures Filter(ByNamespace(xs, namespaces), p) == ByNamespace(Filter(xs, p), namespaces)
  {
    if namespaces != [] {
      var init, last := namespaces[..|namespaces| - 1], namespaces[|namespaces| - 1];
      FilterByNamespace(xs, init, p);
      FilterAppend(ByNamespace(xs, init), Filter(xs, InNamespace(last)), p);
      FilterCommutes(xs, InNamespace(last), p);
    }
  }

  function Outside(n: string): ObjectResource -> bool
  {
    (r: ObjectResource) => r.content.namespace != n
  }

  /** Nothing before a lesser last element is of the greatest namespace. */
  lemma NoneGreatestBefore(xs: seq<ObjectResource>, n: string, i: nat)
    requires NamespaceSorted(xs) && i < |xs| - 1
    requires Compare(xs[|xs| - 1].content.namespace, n) <= 0
    requires xs[|xs| - 1].content.namespace != n
    ensures xs[i].content.namespace != n
  {
    var last := xs[|xs| - 1].content.namespace;
    CompareZero(last, n);
    CompareAntisymmetric(last, n);
    assert Compare(xs[i].content.namespace, last) <= 0;
  }

  /** In a sorted sequence the resources of the greatest namespace come last. */
  lemma {:induction false} GreatestLast(xs: seq<ObjectResource>, n: string)
    requires NamespaceSorted(xs)
    requires forall i :: 0 <= i < |xs| ==> Compare(xs[i].content.namespace, n) <= 0
    ensures xs == Filter(xs, Outside(n)) + Filter(xs, InNamespace(n))
    ensures NamespaceSorted(Filter(xs, Outside(n)))
  {
    if xs != [] {
      var init, last := xs[..|xs| - 1], xs[|xs| - 1];
      if last.content.namespace != n {
        forall x | x in xs ensures Outside(n)(x) {
          var i :| 0 <= i < |xs| && xs[i] == x;
          if i < |xs| - 1 { NoneGreatestBefore(xs, n, i); }
        }
        FilterEverything(xs, Outside(n));
        FilterNothing(xs, InNamespace(n));
      } else {
        GreatestLast(init, n);
      }
    }
  }

  lemma {:induction false} ByNamespaceAgree(xs: seq<ObjectResource>, ys: seq<ObjectResource>, namespaces: seq<string>)
    requires forall n :: n in namespaces ==> Filter(xs, InNamespace(n)) == Filter(ys, InNamespace(n))
    ensures ByNamespace(xs, namespaces) == ByNamespace(ys, namespaces)
  {
    if namespaces != [] {
      assert namespaces[|namespaces| - 1] in namespaces;
      ByNamespaceAgree(xs, ys, namespaces[..|namespaces| - 1]);
    }
  }

  /** Without its greatest namespace, a sorted sequence still has its other namespaces in full. */
  lemma LowerPart(xs: seq<ObjectResource>, init: seq<string>, last: string)
    requires NamespaceSorted(xs) && StrictlyAscending(init + [last])
    requires forall i :: 0 <= i < |xs| ==> xs[i].content.namespace in init + [last]
    ensures xs == Filter(xs, Outside(last)) + Filter(xs, InNamespace(last))
    ensures
      var low := Filter(xs, Outside(last));
      && NamespaceSorted(low)
      && (forall i :: 0 <= i < |low| ==> low[i].content.namespace in init)
      && (forall m :: m in init ==> Filter(xs, InNamespace(m)) == Filter(low, InNamespace(m)))
  {
    var namespaces := init + [last];
    CompareZero(last, last);
    forall m | m in init ensures Compare(m, last) < 0 && m != last {
      var i :| 0 <= i < |init| && init[i] == m;
      assert Compare(namespaces[i], namespaces[|init|]) < 0;
    }
    GreatestLast(xs, last);
    FilterIn(xs, Outside(last));
    var low := Filter(xs, Outside(last));
    forall i | 0 <= i < |low| ensures low[i].content.namespace in init {
      assert low[i] in low;
      var j :| 0 <= j < |xs| && xs[j] == low[i];
    }
    forall m | m in init ensures Filter(xs, InNamespace(m)) == Filter(low, InNamespace(m)) {
      FilterTwice(xs, Outside(last), InNamespace(m), InNamespace(m));
    }
  }

  lemma OnlyEmpty(xs: seq<ObjectResource>)
    requires forall x :: x in xs ==> x.content.namespace in []
    ensures xs == []
  {
    var none := (r: ObjectResource) => false;
    FilterEverything(xs, none);
    FilterNothing(xs, none);
  }

  /** A sequence already in namespace order is unchanged by listing it namespace by namespace. */
  lemma {:induction false} ByNamespaceOfSorted(xs: seq<ObjectResource>, namespaces: seq<string>)
    requires NamespaceSorted(xs) && StrictlyAscending(namespaces)
    requires forall i :: 0 <= i < |xs| ==> xs[i].content.namespace in namespaces
    ensures ByNamespace(xs, namespaces) == xs
    decreases |namespaces|
  {
    if namespaces == [] {
      assert forall x :: x in xs ==> x.content.namespace in [];
      OnlyEmpty(xs);
    } else {
      hide NamespaceSorted, Compare;
      var n := |namespaces| - 1;
      var init, last := namespaces[..n], namespaces[n];
      assert namespaces == init + [last];
      LowerPart(xs, init, last);
      var low := Filter(xs, Outside(last));
      ByNamespaceOfSorted(low, init);
      ByNamespaceAgree(xs, low, init);
    }
  }

  lemma {:induction false} ByNamespaceIn(xs: seq<ObjectResource>, namespaces: seq<string>)
    ensures forall x :: x in ByNamespace(xs, namespaces) <==> x in xs && x.content.namespace in namespaces
  {
    if namespaces != [] {
      var init, last := namespaces[..|namespaces| - 1], namespaces[|namespaces| - 1];
      ByNamespaceIn(xs, init);
      FilterIn(xs, InNamespace(last));
      assert namespaces == init + [last];
    }
  }

  /** A listing in ascending order of namespaces is in namespace order. */
  lemma {:induction false} ListingIsSorted(xs: seq<ObjectResource>, namespaces: seq<string>)
    requires StrictlyAscending(namespaces)
    ensures NamespaceSorted(ByNamespace(xs, namespaces))
  {
    if namespaces != [] {
      var init, last := namespaces[..|namespaces| - 1], namespaces[|namespaces| - 1];
      ListingIsSorted(xs, init);
      var low, top := ByNamespace(xs, init), Filter(xs, InNamespace(last));
      ByNamespaceIn(xs, init);
      FilterIn(xs, InNamespace(last));
      CompareZero(last, last);
      forall j | 0 <= j < |top| ensures top[j].content.namespace == last { assert top[j] in top; }
      forall i | 0 <= i < |low| ensures Compare(low[i].content.namespace, last) <= 0 {
        assert low[i] in low;
        var k :| 0 <= k < |init| && init[k] == low[i].content.namespace;
        assert Compare(namespaces[k], namespaces[|init|]) < 0;
      }
    }
  }
}
