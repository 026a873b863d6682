/** Stable sorting by a comparator, as `slices.SortStableFunc` specifies it: ascending, equal elements in their original
    order. That specification has exactly one solution. */
module StableSort {
  import opened Seqs

  /** Comparators are given as total preorders with strings.Compare-like signs. */
  ghost predicate IsComparator<T(!new)>(cmp: (T, T) -> int)
  {
    && (forall a, b :: cmp(a, b) <= 0 <==> cmp(b, a) >= 0)
    && (forall a, b, c :: cmp(a, b) <= 0 && cmp(b, c) <= 0 ==> cmp(a, c) <= 0)
  }

  predicate Ascending<T>(xs: seq<T>, cmp: (T, T) -> int)
  {
    forall i, j :: 0 <= i < j < |xs| ==> cmp(xs[i], xs[j]) <= 0
  }

  /** The elements the comparator does not tell from `x`. */
  function Tied<T>(x: T, cmp: (T, T) -> int): T -> bool
  {
    (y: T) => cmp(x, y) <= 0 && cmp(y, x) <= 0
  }

  ghost predicate IsStableSort<T(!new)>(xs: seq<T>, sorted: seq<T>, cmp: (T, T) -> int)
  {
    Ascending(sorted, cmp) && forall x :: Filter(sorted, Tied(x, cmp)) == Filter(xs, Tied(x, cmp))
  }

  /** Puts `x` after the elements that are not greater. */
  function Insert<T>(sorted: seq<T>, x: T, cmp: (T, T) -> int): seq<T>
  {
    if sorted == [] then [x]
    else if cmp(sorted[|sorted| - 1], x) <= 0 then sorted + [x]
    else Insert(sorted[..|sorted| - 1], x, cmp) + [sorted[|sorted| - 1]]
  }

  function Sort<T>(xs: seq<T>, cmp: (T, T) -> int): seq<T>
  {
    if xs == [] then [] else Insert(Sort(xs[..|xs| - 1], cmp), xs[|xs| - 1], cmp)
  }

  lemma {:induction false} InsertElements<T(!new)>(sorted: seq<T>, x: T, cmp: (T, T) -> int)
    ensures multiset(Insert(sorted, x, cmp)) == multiset(sorted) + multiset{x}
    ensures forall y :: y in Insert(sorted, x, cmp) <==> y == x || y in sorted
  {
    if sorted != [] {
      var n := |sorted| - 1;
      assert sorted == sorted[..n] + [sorted[n]];
      InsertElements(sorted[..n], x, cmp);
    }
  }

  lemma {:induction false} InsertAscending<T(!new)>(sorted: seq<T>, x: T, cmp: (T, T) -> int)
    requires IsComparator(cmp) && Ascending(sorted, cmp)
    ensures Ascending(Insert(sorted, x, cmp), cmp)
  {
    if sorted != [] {
      var n := |sorted| - 1;
      if cmp(sorted[n], x) > 0 {
        InsertAscending(sorted[..n], x, cmp);
        InsertElements(sorted[..n], x, cmp);
        var front := Insert(sorted[..n], x, cmp);
        forall i | 0 <= i < |front| ensures cmp(front[i], sorted[n]) <= 0 { assert front[i] in front; }
      } else {
        forall i | 0 <= i < |sorted| ensures cmp(sorted[i], x) <= 0 {
          if i < n { assert cmp(sorted[i], sorted[n]) <= 0; }
        }
      }
    }
  }

  /** Inserting keeps ties in order, the new element last among its equals. */
  lemma {:induction false} InsertStable<T(!new)>(sorted: seq<T>, x: T, cmp: (T, T) -> int, t: T)
    requires IsComparator(cmp)
    ensures Filter(Insert(sorted, x, cmp), Tied(t, cmp)) == Filter(sorted + [x], Tied(t, cmp))
  {
    var n := |sorted| - 1;
    if sorted != [] && cmp(sorted[n], x) > 0 {
      InsertStable(sorted[..n], x, cmp, t);
      NotBothTied(sorted[n], x, cmp, t);
      FilterSwap(Insert(sorted[..n], x, cmp), sorted[..n], sorted[n], x, Tied(t, cmp));
      assert sorted == sorted[..n] + [sorted[n]];
    } else {
      assert Insert(sorted, x, cmp) == sorted + [x];
    }
  }

  lemma FilterSwap<T>(front: seq<T>, init: seq<T>, last: T, x: T, keep: T -> bool)
    requires Filter(front, keep) == Filter(init + [x], keep) && (!keep(last) || !keep(x))
    ensures Filter(front + [last], keep) == Filter(init + [last] + [x], keep)
  {
    FilterAppend(front, [last], keep);
    FilterAppend(init, [x], keep);
    FilterAppend(init + [last], [x], keep);
    FilterAppend(init, [last], keep);
    FilterOne(x, keep);
    FilterOne(last, keep);
    hide Filter;
    var low := Filter(init, keep);
    if keep(last) {
      assert low + Filter([x], keep) == low;
    } else {
      assert low + Filter([last], keep) == low && Filter(front, keep) + Filter([last], keep) == Filter(front, keep);
    }
  }

  lemma NotBothTied<T(!new)>(a: T, b: T, cmp: (T, T) -> int, t: T)
    requires IsComparator(cmp) && cmp(a, b) > 0
    ensures !Tied(t, cmp)(a) || !Tied(t, cmp)(b)
  {
  }

  lemma FilterOne<T>(x: T, keep: T -> bool)
    ensures Filter([x], keep) == if keep(x) then [x] else []
  {
    assert [x][..0] == [];
  }

  /** The sorting function meets the specification, and permutes. */
  lemma {:induction false} SortIsStableSort<T(!new)>(xs: seq<T>, cmp: (T, T) -> int)
    requires IsComparator(cmp)
    ensures IsStableSort(xs, Sort(xs, cmp), cmp)
    ensures multiset(Sort(xs, cmp)) == multiset(xs)
  {
    if xs != [] {
      var init, last := xs[..|xs| - 1], xs[|xs| - 1];
      assert xs == init + [last];
      SortIsStableSort(init, cmp);
      InsertAscending(Sort(init, cmp), last, cmp);
      InsertElements(Sort(init, cmp), last, cmp);
      forall t ensures Filter(Sort(xs, cmp), Tied(t, cmp)) == Filter(xs, Tied(t, cmp)) {
        InsertStable(Sort(init, cmp), last, cmp, t);
        FilterAppend(Sort(init, cmp), [last], Tied(t, cmp));
        FilterAppend(init, [last], Tied(t, cmp));
      }
    }
  }

  /** The greatest element of one sequence is no greater than the greatest of the other. */
  lemma LastBounded<T(!new)>(a: seq<T>, b: seq<T>, cmp: (T, T) -> int)
    requires IsComparator(cmp) && Ascending(b, cmp) && a != []
    requires forall x :: Filter(a, Tied(x, cmp)) == Filter(b, Tied(x, cmp))
    ensures b != [] && cmp(a[|a| - 1], b[|b| - 1]) <= 0
  {
    var m := a[|a| - 1];
    InOwnTies(a, m, cmp);
    FilterIn(b, Tied(m, cmp));
    assert m in b;
    var j :| 0 <= j < |b| && b[j] == m;
    assert cmp(b[j], b[j]) <= 0;
  }

  /** The greatest element of two sequences with the same ties is the same. */
  lemma SameLast<T(!new)>(a: seq<T>, b: seq<T>, cmp: (T, T) -> int)
    requires IsComparator(cmp) && Ascending(a, cmp) && Ascending(b, cmp)
    requires forall x :: Filter(a, Tied(x, cmp)) == Filter(b, Tied(x, cmp))
    requires a != []
    ensures b != [] && a[|a| - 1] == b[|b| - 1]
  {
    LastBounded(a, b, cmp);
    LastBounded(b, a, cmp);
    LastOfFilter(a, Tied(a[|a| - 1], cmp));
    LastOfFilter(b, Tied(a[|a| - 1], cmp));
  }

  lemma LastOfFilter<T>(xs: seq<T>, keep: T -> bool)
    requires xs != []
    ensures Filter(xs, keep) == Filter(xs[..|xs| - 1], keep) + if keep(xs[|xs| - 1]) then [xs[|xs| - 1]] else []
    ensures keep(xs[|xs| - 1]) ==> Filter(xs, keep) != [] && Filter(xs, keep)[|Filter(xs, keep)| - 1] == xs[|xs| - 1]
  {
  }

  lemma AppendCancels<T>(a: seq<T>, b: seq<T>, s: seq<T>)
    requires a + s == b + s
    ensures a == b
  {
    assert |a| == |b|;
    assert a == (a + s)[..|a|] && b == (b + s)[..|b|];
  }

  lemma InOwnTies<T(!new)>(a: seq<T>, x: T, cmp: (T, T) -> int)
    requires IsComparator(cmp) && x in a
    ensures cmp(x, x) <= 0
    ensures x in Filter(a, Tied(x, cmp))
  {
    assert cmp(x, x) <= 0 <==> cmp(x, x) >= 0;
    FilterIn(a, Tied(x, cmp));
  }

  /** There is one stable sort of a sequence: an ascending sequence is determined by its ties. */
  lemma {:induction false} TiesDetermine<T(!new)>(a: seq<T>, b: seq<T>, cmp: (T, T) -> int)
    requires IsComparator(cmp) && Ascending(a, cmp) && Ascending(b, cmp)
    requires forall x :: Filter(a, Tied(x, cmp)) == Filter(b, Tied(x, cmp))
    ensures a == b
  {
    if a == [] {
      if b != [] { SameLast(b, a, cmp); }
    } else {
      SameLast(a, b, cmp);
      var a', b' := a[..|a| - 1], b[..|b| - 1];
      forall x ensures Filter(a', Tied(x, cmp)) == Filter(b', Tied(x, cmp)) {
        LastOfFilter(a, Tied(x, cmp));
        LastOfFilter(b, Tied(x, cmp));
        AppendCancels(Filter(a', Tied(x, cmp)), Filter(b', Tied(x, cmp)),
                      if Tied(x, cmp)(a[|a| - 1]) then [a[|a| - 1]] else []);
      }
      TiesDetermine(a', b', cmp);
    }
  }

  lemma StableSortUnique<T(!new)>(xs: seq<T>, sorted: seq<T>, cmp: (T, T) -> int)
    requires IsComparator(cmp) && IsStableSort(xs, sorted, cmp)
    ensures sorted == Sort(xs, cmp)
  {
    SortIsStableSort(xs, cmp);
    TiesDetermine(sorted, Sort(xs, cmp), cmp);
  }

  /** Elements greater than `x` stay behind it. */
  lemma {:induction false} InsertPasses<T>(sorted: seq<T>, x: T, cmp: (T, T) -> int, j: nat)
    requires j <= |sorted| && forall k :: j <= k < |sorted| ==> cmp(sorted[k], x) > 0
    ensures Insert(sorted, x, cmp) == Insert(sorted[..j], x, cmp) + sorted[j..]
  {
    var n := |sorted| - 1;
    if j == |sorted| {
      assert sorted[..j] == sorted;
    } else {
      InsertPasses(sorted[..n], x, cmp, j);
      assert sorted[..n][..j] == sorted[..j];
      assert sorted[..n][j..] + [sorted[n]] == sorted[j..];
    }
  }

  /** Stable sorting in place, as the library sorts short slices: each element moves down past the greater ones. */
  method SortStable<T(!new)>(a: array<T>, cmp: (T, T) -> int)
    requires IsComparator(cmp)
    modifies a
    ensures a[..] == Sort(old(a[..]), cmp)
  {
    ghost var was := a[..];
    var i := 0;
    while i < a.Length
      invariant 0 <= i <= a.Length
      invariant a[..i] == Sort(was[..i], cmp)
      invariant a[i..] == was[i..]
    {
      MoveDown(a, i, cmp);
      assert was[..i + 1][..i] == was[..i] && was[i] == was[i..][0];
      assert was[i + 1..] == was[i..][1..];
      i := i + 1;
    }
    assert was[..i] == was && a[..i] == a[..];
  }

  /** The inner loop: the element at `i` finds its place among the elements before it. */
  method MoveDown<T(!new)>(a: array<T>, i: nat, cmp: (T, T) -> int)
    requires IsComparator(cmp) && i < a.Length
    modifies a
    ensures a[..i + 1] == Insert(old(a[..i]), old(a[i]), cmp)
    ensures a[i + 1..] == old(a[i + 1..])
  {
    hide IsComparator, Insert;
    ghost var was := a[..];
    ghost var sorted, x := was[..i], was[i];
    var j := i;
    while j > 0 && cmp(a[j], a[j - 1]) < 0
      invariant 0 <= j <= i
      invariant forall k :: 0 <= k < j ==> a[k] == was[k]
      invariant a[j] == x
      invariant forall k :: j < k <= i ==> a[k] == was[k - 1]
      invariant forall k :: i < k < a.Length ==> a[k] == was[k]
      invariant forall k :: j <= k < i ==> cmp(was[k], x) > 0
    {
      SignsOppose(a[j], a[j - 1], cmp);
      a[j], a[j - 1] := a[j - 1], a[j];
      j := j - 1;
    }
    InsertPasses(sorted, x, cmp, j);
    LastNotGreater(sorted[..j], x, cmp);
    assert a[..i + 1] == sorted[..j] + [x] + sorted[j..];
  }

  lemma SignsOppose<T(!new)>(x: T, y: T, cmp: (T, T) -> int)
    requires IsComparator(cmp)
    ensures cmp(x, y) < 0 <==> cmp(y, x) > 0
  {
  }

  lemma LastNotGreater<T(!new)>(low: seq<T>, x: T, cmp: (T, T) -> int)
    requires IsComparator(cmp)
    requires low != [] ==> cmp(x, low[|low| - 1]) >= 0
    ensures Insert(low, x, cmp) == low + [x]
  {
  }
}
