/** resource.go: comparing two lists of resources by filename. */
module ResourceDiff {
  import opened Seqs
  import opened Dedup
  import opened Kube

  function FilenameOf<C>(r: Resource<C>): string
  {
    r.filename
  }

  /** `findResource`: the first resource with the filename. */
  function FindResource<C>(xs: seq<Resource<C>>, filename: string): Option<Resource<C>>
  {
    if xs == [] then None
    else if xs[0].filename == filename then Some(xs[0])
    else FindResource(xs[1..], filename)
  }

  datatype Reason = MissingInRhs(index: nat) | DoesNotMatch(index: nat) | MissingInLhs(index: nat)

  function LhsReason<C(==)>(lhses: seq<Resource<C>>, rhses: seq<Resource<C>>, i: nat): seq<Reason>
    requires i < |lhses|
  {
    match FindResource(rhses, lhses[i].filename)
    case None => [MissingInRhs(i)]
    case Some(rhs) => if lhses[i].content != rhs.content then [DoesNotMatch(i)] else []
  }

  function RhsReason<C>(lhses: seq<Resource<C>>, rhses: seq<Resource<C>>, i: nat): seq<Reason>
    requires i < |rhses|
  {
    if FindResource(lhses, rhses[i].filename).None? then [MissingInLhs(i)] else []
  }

  function LhsReasonAt<C(==)>(lhses: seq<Resource<C>>, rhses: seq<Resource<C>>): nat -> seq<Reason>
  {
    (i: nat) => if i < |lhses| then LhsReason(lhses, rhses, i) else []
  }

  function RhsReasonAt<C>(lhses: seq<Resource<C>>, rhses: seq<Resource<C>>): nat -> seq<Reason>
  {
    (i: nat) => if i < |rhses| then RhsReason(lhses, rhses, i) else []
  }

  function Reasons<C(==)>(lhses: seq<Resource<C>>, rhses: seq<Resource<C>>): seq<Reason>
  {
    Collect(|lhses|, LhsReasonAt(lhses, rhses)) + Collect(|rhses|, RhsReasonAt(lhses, rhses))
  }

  method EquivalentResources<C(==)>(lhses: seq<Resource<C>>, rhses: seq<Resource<C>>) returns (reasons: seq<Reason>)
    ensures reasons == Reasons(lhses, rhses)
  {
    reasons := [];
    for i := 0 to |lhses|
      invariant reasons == Collect(i, LhsReasonAt(lhses, rhses))
    {
      var rhs := FindResource(rhses, lhses[i].filename);
      if rhs.None? {
        reasons := reasons + [MissingInRhs(i)];
      } else if lhses[i].content != rhs.value.content {
        reasons := reasons + [DoesNotMatch(i)];
      }
    }
    for i := 0 to |rhses|
      invariant reasons == Collect(|lhses|, LhsReasonAt(lhses, rhses)) + Collect(i, RhsReasonAt(lhses, rhses))
    {
      var lhs := FindResource(lhses, rhses[i].filename);
      if lhs.None? {
        reasons := reasons + [MissingInLhs(i)];
      }
    }
  }

  /** What a list of resources denotes: which contents are under which filename. */
  ghost function Pairs<C>(xs: seq<Resource<C>>): set<(string, C)>
  {
    set x | x in xs :: (x.filename, x.content)
  }

  lemma {:induction false} FindIsFirst<C(!new)>(xs: seq<Resource<C>>, f: string)
    ensures FindResource(xs, f).None? <==> forall x :: x in xs ==> x.filename != f
    ensures FindResource(xs, f).Some? ==>
              exists i :: 0 <= i < |xs| && xs[i] == FindResource(xs, f).value && xs[i].filename == f
                          && FirstAt(xs, i, FilenameOf)
  {
    if xs != [] {
      assert xs == [xs[0]] + xs[1..];
      FindIsFirst(xs[1..], f);
      if xs[0].filename == f {
        assert FirstAt(xs, 0, FilenameOf);
      } else if FindResource(xs, f).Some? {
        var i :| 0 <= i < |xs[1..]| && xs[1..][i] == FindResource(xs[1..], f).value && xs[1..][i].filename == f
                 && FirstAt(xs[1..], i, FilenameOf);
        assert xs[i + 1] == xs[1..][i];
        forall j | 0 <= j < i + 1 ensures FilenameOf(xs[j]) != FilenameOf(xs[i + 1]) {
          if j > 0 { assert xs[j] == xs[1..][j - 1]; }
        }
        assert FirstAt(xs, i + 1, FilenameOf);
      }
    }
  }

  lemma FirstAtPrefix<C(!new)>(xs: seq<Resource<C>>, n: nat, i: nat)
    requires i < n <= |xs|
    ensures FirstAt(xs[..n], i, FilenameOf) <==> FirstAt(xs, i, FilenameOf)
  {
    assert forall j :: 0 <= j <= i ==> xs[..n][j] == xs[j];
  }

  lemma {:induction false} FirstOccurrencesAreFirst<C(!new)>(xs: seq<Resource<C>>, x: Resource<C>)
    ensures x in FirstOccurrences(xs, FilenameOf) <==>
            exists i :: 0 <= i < |xs| && xs[i] == x && FirstAt(xs, i, FilenameOf)
  {
    if xs != [] {
      var n := |xs| - 1;
      FirstOccurrencesAreFirst(xs[..n], x);
      forall i | 0 <= i < n ensures FirstAt(xs[..n], i, FilenameOf) <==> FirstAt(xs, i, FilenameOf) {
        FirstAtPrefix(xs, n, i);
      }
      if i :| 0 <= i < n && xs[i] == x && FirstAt(xs, i, FilenameOf) {
        assert xs[..n][i] == x;
      }
      if i :| 0 <= i < n && xs[..n][i] == x && FirstAt(xs[..n], i, FilenameOf) {
        assert xs[i] == x;
      }
    }
  }

  /** The first resource with a filename is the one deduplication keeps. */
  lemma FindIsKept<C(!new)>(xs: seq<Resource<C>>, x: Resource<C>)
    ensures FindResource(xs, x.filename) == Some(x) <==> x in FirstOccurrences(xs, FilenameOf)
  {
    FindIsFirst(xs, x.filename);
    FirstOccurrencesAreFirst(xs, x);
    if x in FirstOccurrences(xs, FilenameOf) {
      var i :| 0 <= i < |xs| && xs[i] == x && FirstAt(xs, i, FilenameOf);
      assert xs[i] in xs;
      var j :| 0 <= j < |xs| && xs[j] == FindResource(xs, x.filename).value && xs[j].filename == x.filename
               && FirstAt(xs, j, FilenameOf);
      assert FilenameOf(xs[i]) == FilenameOf(xs[j]);
    }
  }

  predicate Matched<C(==)>(x: Resource<C>, rhses: seq<Resource<C>>)
  {
    FindResource(rhses, x.filename).Some? && FindResource(rhses, x.filename).value.content == x.content
  }

  predicate NoReason<C(==)>(lhses: seq<Resource<C>>, rhses: seq<Resource<C>>)
  {
    && (forall x :: x in lhses ==> Matched(x, rhses))
    && (forall y :: y in rhses ==> FindResource(lhses, y.filename).Some?)
  }

  lemma LhsReasonEmpty<C(!new)>(lhses: seq<Resource<C>>, rhses: seq<Resource<C>>, i: nat)
    requires i < |lhses|
    ensures LhsReasonAt(lhses, rhses)(i) == [] <==> Matched(lhses[i], rhses)
  {
  }

  lemma RhsReasonEmpty<C(!new)>(lhses: seq<Resource<C>>, rhses: seq<Resource<C>>, i: nat)
    requires i < |rhses|
    ensures RhsReasonAt(lhses, rhses)(i) == [] <==> FindResource(lhses, rhses[i].filename).Some?
  {
  }

  lemma LhsReasonsEmpty<C(!new)>(lhses: seq<Resource<C>>, rhses: seq<Resource<C>>)
    ensures Collect(|lhses|, LhsReasonAt(lhses, rhses)) == [] <==> forall x :: x in lhses ==> Matched(x, rhses)
  {
    var l := LhsReasonAt(lhses, rhses);
    CollectEmpty(|lhses|, l);
    forall i: nat | i < |lhses| ensures l(i) == [] <==> Matched(lhses[i], rhses) { LhsReasonEmpty(lhses, rhses, i); }
    hide LhsReasonAt, Matched;
    assert forall i :: 0 <= i < |lhses| ==> lhses[i] in lhses;
  }

  lemma RhsReasonsEmpty<C(!new)>(lhses: seq<Resource<C>>, rhses: seq<Resource<C>>)
    ensures Collect(|rhses|, RhsReasonAt(lhses, rhses)) == [] <==>
            forall y :: y in rhses ==> FindResource(lhses, y.filename).Some?
  {
    var r := RhsReasonAt(lhses, rhses);
    CollectEmpty(|rhses|, r);
    forall i: nat | i < |rhses| ensures r(i) == [] <==> FindResource(lhses, rhses[i].filename).Some? {
      RhsReasonEmpty(lhses, rhses, i);
    }
    hide RhsReasonAt, FindResource;
    assert forall i :: 0 <= i < |rhses| ==> rhses[i] in rhses;
  }

  lemma NoReasonExactly<C(!new)>(lhses: seq<Resource<C>>, rhses: seq<Resource<C>>)
    ensures Reasons(lhses, rhses) == [] <==> NoReason(lhses, rhses)
  {
    LhsReasonsEmpty(lhses, rhses);
    RhsReasonsEmpty(lhses, rhses);
  }

  /** What each reason says: no resource of the filename on the other side, or a first one with another content. */
  lemma ReasonsMean<C(!new)>(lhses: seq<Resource<C>>, rhses: seq<Resource<C>>, i: nat)
    ensures MissingInRhs(i) in Reasons(lhses, rhses) <==>
            i < |lhses| && forall y :: y in rhses ==> y.filename != lhses[i].filename
    ensures MissingInLhs(i) in Reasons(lhses, rhses) <==>
            i < |rhses| && forall x :: x in lhses ==> x.filename != rhses[i].filename
    ensures DoesNotMatch(i) in Reasons(lhses, rhses) <==>
            i < |lhses| && FindResource(rhses, lhses[i].filename).Some? && !Matched(lhses[i], rhses)
  {
    if i < |lhses| { FindIsFirst(rhses, lhses[i].filename); }
    if i < |rhses| { FindIsFirst(lhses, rhses[i].filename); }
    hide FindResource, Matched, Reasons;
    ReasonListed(lhses, rhses, MissingInRhs(i));
    ReasonListed(lhses, rhses, MissingInLhs(i));
    ReasonListed(lhses, rhses, DoesNotMatch(i));
  }

  predicate IsReason<C(==)>(lhses: seq<Resource<C>>, rhses: seq<Resource<C>>, reason: Reason)
  {
    match reason
    case MissingInRhs(j) => j < |lhses| && FindResource(rhses, lhses[j].filename).None?
    case DoesNotMatch(j) => j < |lhses| && FindResource(rhses, lhses[j].filename).Some? && !Matched(lhses[j], rhses)
    case MissingInLhs(j) => j < |rhses| && FindResource(lhses, rhses[j].filename).None?
  }

  /** The reasons listed are exactly those there are. */
  lemma ReasonListed<C(!new)>(lhses: seq<Resource<C>>, rhses: seq<Resource<C>>, reason: Reason)
    ensures reason in Reasons(lhses, rhses) <==> IsReason(lhses, rhses, reason)
  {
    var l, r := LhsReasonAt(lhses, rhses), RhsReasonAt(lhses, rhses);
    forall j: nat
      ensures reason in l(j) <==> reason.index == j && !reason.MissingInLhs? && IsReason(lhses, rhses, reason)
    {
      LhsReasonListed(lhses, rhses, j, reason);
    }
    forall j: nat
      ensures reason in r(j) <==> reason.index == j && reason.MissingInLhs? && IsReason(lhses, rhses, reason)
    {
      RhsReasonListed(lhses, rhses, j, reason);
    }
    assert IsReason(lhses, rhses, reason) && !reason.MissingInLhs? ==> reason.index < |lhses|;
    assert IsReason(lhses, rhses, reason) && reason.MissingInLhs? ==> reason.index < |rhses|;
    hide LhsReasonAt, RhsReasonAt, IsReason;
    CollectIn(|lhses|, l, reason);
    CollectIn(|rhses|, r, reason);
    assert IsReason(lhses, rhses, reason) ==> reason in l(reason.index) || reason in r(reason.index);
  }

  lemma LhsReasonListed<C(!new)>(lhses: seq<Resource<C>>, rhses: seq<Resource<C>>, j: nat, reason: Reason)
    ensures reason in LhsReasonAt(lhses, rhses)(j) <==>
            reason.index == j && !reason.MissingInLhs? && IsReason(lhses, rhses, reason)
  {
  }

  lemma RhsReasonListed<C(!new)>(lhses: seq<Resource<C>>, rhses: seq<Resource<C>>, j: nat, reason: Reason)
    ensures reason in RhsReasonAt(lhses, rhses)(j) <==>
            reason.index == j && reason.MissingInLhs? && IsReason(lhses, rhses, reason)
  {
  }

  /** Exactly what an empty verdict means, for all lists: the left list denotes what the right list denotes once later
      repetitions of a filename are dropped from the right. */
  lemma EquivalentExactly<C(!new)>(lhses: seq<Resource<C>>, rhses: seq<Resource<C>>)
    ensures Reasons(lhses, rhses) == [] <==> Pairs(lhses) == Pairs(FirstOccurrences(rhses, FilenameOf))
  {
    NoReasonExactly(lhses, rhses);
    var kept := FirstOccurrences(rhses, FilenameOf);
    if NoReason(lhses, rhses) {
      forall p | p in Pairs(lhses) ensures p in Pairs(kept) { LeftIsKept(lhses, rhses, p); }
      forall p | p in Pairs(kept) ensures p in Pairs(lhses) { KeptIsLeft(lhses, rhses, p); }
    }
    if Pairs(lhses) == Pairs(kept) {
      EqualMeansNoReason(lhses, rhses);
    }
  }

  lemma LeftIsKept<C(!new)>(lhses: seq<Resource<C>>, rhses: seq<Resource<C>>, p: (string, C))
    requires NoReason(lhses, rhses) && p in Pairs(lhses)
    ensures p in Pairs(FirstOccurrences(rhses, FilenameOf))
  {
    var x :| x in lhses && (x.filename, x.content) == p;
    FindIsFirst(rhses, x.filename);
    FindIsKept(rhses, FindResource(rhses, x.filename).value);
  }

  lemma KeptIsLeft<C(!new)>(lhses: seq<Resource<C>>, rhses: seq<Resource<C>>, p: (string, C))
    requires NoReason(lhses, rhses) && p in Pairs(FirstOccurrences(rhses, FilenameOf))
    ensures p in Pairs(lhses)
  {
    var y :| y in FirstOccurrences(rhses, FilenameOf) && (y.filename, y.content) == p;
    FindIsKept(rhses, y);
    FirstOccurrencesSet(rhses, FilenameOf<C>);
    FindIsFirst(lhses, y.filename);
  }

  lemma EqualMeansNoReason<C(!new)>(lhses: seq<Resource<C>>, rhses: seq<Resource<C>>)
    requires Pairs(lhses) == Pairs(FirstOccurrences(rhses, FilenameOf))
    ensures NoReason(lhses, rhses)
  {
    var kept := FirstOccurrences(rhses, FilenameOf);
    forall x | x in lhses
      ensures FindResource(rhses, x.filename).Some? && FindResource(rhses, x.filename).value.content == x.content
    {
      assert (x.filename, x.content) in Pairs(kept);
      var y :| y in kept && (y.filename, y.content) == (x.filename, x.content);
      FindIsKept(rhses, y);
    }
    forall z | z in rhses ensures FindResource(lhses, z.filename).Some? {
      FindIsFirst(rhses, z.filename);
      var y := FindResource(rhses, z.filename).value;
      FindIsKept(rhses, y);
      assert (y.filename, y.content) in Pairs(lhses);
      FindIsFirst(lhses, z.filename);
    }
  }

  lemma PairsOfPermutation<C(!new)>(a: seq<Resource<C>>, b: seq<Resource<C>>)
    requires multiset(a) == multiset(b)
    ensures Pairs(a) == Pairs(b)
  {
    assert forall x :: x in a <==> x in multiset(a);
    assert forall x :: x in b <==> x in multiset(b);
  }

  /** With distinct filenames the verdict is equality of the denoted maps, hence symmetric. */
  lemma EquivalentIsMapEquality<C(!new)>(lhses: seq<Resource<C>>, rhses: seq<Resource<C>>)
    requires DistinctKeys(lhses, FilenameOf) && DistinctKeys(rhses, FilenameOf)
    ensures Reasons(lhses, rhses) == [] <==> Pairs(lhses) == Pairs(rhses)
    ensures Reasons(lhses, rhses) == [] <==> Reasons(rhses, lhses) == []
  {
    FirstOccurrencesIdempotent(lhses, FilenameOf);
    FirstOccurrencesIdempotent(rhses, FilenameOf);
    EquivalentExactly(lhses, rhses);
    EquivalentExactly(rhses, lhses);
  }

  /** With distinct filenames the verdict does not depend on the order of either list. */
  lemma EquivalentIgnoresOrder<C(!new)>(
    lhses: seq<Resource<C>>, rhses: seq<Resource<C>>, lhses': seq<Resource<C>>, rhses': seq<Resource<C>>)
    requires DistinctKeys(lhses, FilenameOf) && DistinctKeys(rhses, FilenameOf)
    requires DistinctKeys(lhses', FilenameOf) && DistinctKeys(rhses', FilenameOf)
    requires multiset(lhses) == multiset(lhses') && multiset(rhses) == multiset(rhses')
    ensures Reasons(lhses, rhses) == [] <==> Reasons(lhses', rhses') == []
  {
    EquivalentIsMapEquality(lhses, rhses);
    EquivalentIsMapEquality(lhses', rhses');
    PairsOfPermutation(lhses, lhses');
    PairsOfPermutation(rhses, rhses');
  }

  /** With a repeated filename the verdict depends on the side the repetition is on. */
  lemma RepeatedFilenameAsymmetric<C(!new)>(f: string, t: GVR, a: C, b: C)
    requires a != b
    ensures
      var once, twice := [Resource(f, t, a)], [Resource(f, t, a), Resource(f, t, b)];
      Reasons(once, twice) == [] && Reasons(twice, once) != []
  {
    var once, twice := [Resource(f, t, a)], [Resource(f, t, a), Resource(f, t, b)];
    NoReasonExactly(once, twice);
    NoReasonExactly(twice, once);
    assert twice[1] in twice;
  }
}
