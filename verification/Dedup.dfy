/** Deduplication by key: keep the first occurrence of every key, in order. */
module Dedup {
  import opened Seqs

  ghost function Keys<T, K>(xs: seq<T>, key: T -> K): set<K>
  {
    set x | x in xs :: key(x)
  }

  lemma KeysAppend<T, K>(a: seq<T>, b: seq<T>, key: T -> K)
    ensures Keys(a + b, key) == Keys(a, key) + Keys(b, key)
  {
  }

  predicate DistinctKeys<T, K(==)>(xs: seq<T>, key: T -> K)
  {
    forall i, j :: 0 <= i < j < |xs| ==> key(xs[i]) != key(xs[j])
  }

  predicate FirstAt<T, K(==)>(xs: seq<T>, i: nat, key: T -> K)
    requires i < |xs|
  {
    forall j :: 0 <= j < i ==> key(xs[j]) != key(xs[i])
  }

  /** The reference: keep exactly the positions whose key did not occur at an earlier position. */
  function FirstOccurrences<T, K(==)>(xs: seq<T>, key: T -> K): seq<T>
  {
    if xs == [] then []
    else FirstOccurrences(xs[..|xs| - 1], key) + if FirstAt(xs, |xs| - 1, key) then [xs[|xs| - 1]] else []
  }

  /** One element more: appended exactly when its key is new. */
  lemma FirstOccurrencesStep<T, K>(xs: seq<T>, x: T, key: T -> K)
    ensures FirstOccurrences(xs + [x], key) ==
            FirstOccurrences(xs, key) + if key(x) in Keys(xs, key) then [] else [x]
  {
    var ys := xs + [x];
    assert ys[..|ys| - 1] == xs;
    if key(x) in Keys(xs, key) {
      var y :| y in xs && key(y) == key(x);
      var i :| 0 <= i < |xs| && xs[i] == y;
      assert key(ys[i]) == key(ys[|xs|]);
    }
  }

  /** Deduplication keeps every key, keeps it once, and invents nothing. */
  lemma {:induction false} FirstOccurrencesSet<T(!new), K>(xs: seq<T>, key: T -> K)
    ensures Keys(FirstOccurrences(xs, key), key) == Keys(xs, key)
    ensures DistinctKeys(FirstOccurrences(xs, key), key)
    ensures forall x :: x in FirstOccurrences(xs, key) ==> x in xs
  {
    if xs != [] {
      var init, last := xs[..|xs| - 1], xs[|xs| - 1];
      FirstOccurrencesSet(init, key);
      FirstOccurrencesStep(init, last, key);
      assert xs == init + [last];
      var r := FirstOccurrences(init, key);
      KeysAppend(init, [last], key);
      KeysAppend(r, [last], key);
      assert Keys([last], key) == {key(last)};
      forall i | 0 <= i < |r| ensures key(r[i]) in Keys(init, key) { assert r[i] in r; }
    }
  }

  function NotIn<T, K(==)>(known: set<K>, key: T -> K): T -> bool
  {
    x => key(x) !in known
  }

  lemma LastIsNew<T, K>(xs: seq<T>, key: T -> K)
    requires xs != [] && DistinctKeys(xs, key)
    ensures DistinctKeys(xs[..|xs| - 1], key)
    ensures key(xs[|xs| - 1]) !in Keys(xs[..|xs| - 1], key)
  {
  }

  /** A batch without internal repetition adds, in order, exactly its elements with new keys. */
  lemma {:induction false} FirstOccurrencesAppend<T, K>(a: seq<T>, b: seq<T>, key: T -> K)
    requires DistinctKeys(b, key)
    ensures FirstOccurrences(a + b, key) == FirstOccurrences(a, key) + Filter(b, NotIn(Keys(a, key), key))
  {
    hide FirstOccurrences, Keys;
    if b == [] {
      assert a + b == a;
    } else {
      var init, last := b[..|b| - 1], b[|b| - 1];
      FirstOccurrencesAppend(a, init, key);
      LastIsNew(b, key);
      FirstOccurrencesStep(a + init, last, key);
      KeysAppend(a, init, key);
      assert a + b == (a + init) + [last];
    }
  }

  lemma {:induction false} FirstOccurrencesIdempotent<T, K>(xs: seq<T>, key: T -> K)
    requires DistinctKeys(xs, key)
    ensures FirstOccurrences(xs, key) == xs
  {
    if xs != [] {
      FirstOccurrencesIdempotent(xs[..|xs| - 1], key);
    }
  }

  /** Batching does not matter: deduplicating as one goes equals deduplicating the whole history. */
  lemma {:induction false} FirstOccurrencesBatch<T(!new), K>(a: seq<T>, b: seq<T>, key: T -> K)
    ensures FirstOccurrences(FirstOccurrences(a, key) + b, key) == FirstOccurrences(a + b, key)
  {
    var fa := FirstOccurrences(a, key);
    FirstOccurrencesSet(a, key);
    if b == [] {
      assert a + b == a && fa + b == fa;
      FirstOccurrencesIdempotent(fa, key);
    } else {
      var init, last := b[..|b| - 1], b[|b| - 1];
      FirstOccurrencesBatch(a, init, key);
      assert a + b == (a + init) + [last] && fa + b == (fa + init) + [last];
      FirstOccurrencesStep(a + init, last, key);
      FirstOccurrencesStep(fa + init, last, key);
      KeysAppend(a, init, key);
      KeysAppend(fa, init, key);
    }
  }

  /** What comes later only extends the deduplicated sequence, and only with new keys. */
  lemma {:induction false} FirstOccurrencesPrefix<T(!new), K>(a: seq<T>, b: seq<T>, key: T -> K) returns (rest: seq<T>)
    ensures FirstOccurrences(a + b, key) == FirstOccurrences(a, key) + rest
    ensures forall x :: x in rest ==> x in b && key(x) !in Keys(a, key)
  {
    if b == [] {
      assert a + b == a;
      rest := [];
    } else {
      var init, last := b[..|b| - 1], b[|b| - 1];
      rest := FirstOccurrencesPrefix(a, init, key);
      FirstOccurrencesStep(a + init, last, key);
      KeysAppend(a, init, key);
      assert a + b == (a + init) + [last];
      if key(last) !in Keys(a + init, key) {
        rest := rest + [last];
      }
    }
  }

  lemma SameKeySameElement<T, K>(xs: seq<T>, x: T, y: T, key: T -> K)
    requires DistinctKeys(xs, key) && x in xs && y in xs && key(x) == key(y)
    ensures x == y
  {
    var i :| 0 <= i < |xs| && xs[i] == x;
    var j :| 0 <= j < |xs| && xs[j] == y;
  }

  lemma {:induction false} FilterDistinctKeys<T, K>(xs: seq<T>, keep: T -> bool, key: T -> K)
    requires DistinctKeys(xs, key)
    ensures DistinctKeys(Filter(xs, keep), key)
    ensures Keys(Filter(xs, keep), key) <= Keys(xs, key)
  {
    if xs != [] {
      var init, last := xs[..|xs| - 1], xs[|xs| - 1];
      FilterDistinctKeys(init, keep, key);
      LastIsNew(xs, key);
      var kept := Filter(init, keep);
      forall i | 0 <= i < |kept| ensures key(kept[i]) in Keys(kept, key) { assert kept[i] in kept; }
      assert xs == init + [last];
      KeysAppend(init, [last], key);
      KeysAppend(kept, [last], key);
    }
  }
}
