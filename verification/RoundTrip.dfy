/** Packing, writing, reading back and packing again. */
module RoundTrip {
  import opened Seqs
  import opened Dedup
  import opened GoStrings
  import opened Kube
  import opened Packing
  import opened MustGatherDir
  import opened ResourceDiff
  import Paths

  /** The input requirement of types.go: all resources of one group and resource use the same version. */
  ghost predicate OneVersionPerResource(rs: seq<ObjectResource>)
  {
    forall a, b :: a in rs && b in rs && a.resourceType.group == b.resourceType.group
                   && a.resourceType.resource == b.resourceType.resource
                   ==> a.resourceType.version == b.resourceType.version
  }

  /** Path segments that name directory entries, and no group spelled like the directory of the core group. */
  predicate PlainResource(r: ObjectResource)
  {
    PlainKey(KeyOf(r.content), r.resourceType.resource) && r.content.gvk.group != "core"
  }

  ghost predicate Packable(d: Discovery, rs: seq<ObjectResource>)
  {
    && OneVersionPerKind(rs)
    && OneVersionPerResource(rs)
    && (forall r :: r in rs ==> Typed(d, r) && PlainResource(r))
  }

  /** Some input of the key, with the type recorded for the key's kind. */
  lemma KeyWitness(d: Discovery, rs: seq<ObjectResource>, k: Key) returns (r: ObjectResource)
    requires Packable(d, rs) && k in KeysOf(rs)
    ensures r in rs && KeyOf(r.content) == k && TypeOf(rs, k.gk) == Some(r.resourceType)
  {
    var o :| o in Contents(rs) && KeyOf(o) == k;
    var i :| 0 <= i < |rs| && rs[i].content == o;
    r := rs[i];
    TypeKnown(rs, k.gk);
    KeyKindKnown(rs, k);
    var t :| t in rs && t.content.GroupKind() == k.gk && t.resourceType == TypeOf(rs, k.gk).value;
    assert Typed(d, r) && Typed(d, t);
    assert r.content.gvk == t.content.gvk;
  }

  function PathOf(rs: seq<ObjectResource>, k: Key): string
  {
    Filename(k, if TypeOf(rs, k.gk).Some? then TypeOf(rs, k.gk).value.resource else "")
  }

  /** No two keys of a packable selection share a file. */
  lemma KeysGetDistinctFiles(d: Discovery, rs: seq<ObjectResource>, k1: Key, k2: Key)
    requires Packable(d, rs) && k1 in KeysOf(rs) && k2 in KeysOf(rs)
    requires PathOf(rs, k1) == PathOf(rs, k2)
    ensures k1 == k2
  {
    var r1 := KeyWitness(d, rs, k1);
    var r2 := KeyWitness(d, rs, k2);
    FilenameInjective(k1, r1.resourceType.resource, k2, r2.resourceType.resource);
    assert r1.resourceType == r2.resourceType;
  }

  lemma PathIsClean(d: Discovery, rs: seq<ObjectResource>, k: Key)
    requires Packable(d, rs) && k in KeysOf(rs)
    ensures PathOf(rs, k) != "" && Loadable(PathOf(rs, k))
    ensures Paths.Join([PathOf(rs, k)]) == PathOf(rs, k)
    ensures PackedFor(rs, k).filename == PathOf(rs, k)
  {
    var r := KeyWitness(d, rs, k);
    PlainPathIsClean(k, r.resourceType.resource);
  }

  lemma {:induction false} JoinEndsWithLast(parts: seq<string>, sep: char)
    requires parts != []
    ensures HasSuffix(JoinWith(parts, sep), parts[|parts| - 1])
  {
    if |parts| > 1 {
      JoinEndsWithLast(parts[1..], sep);
    }
  }

  lemma SuffixOfSuffix(s: string, t: string, u: string)
    requires HasSuffix(s, t) && HasSuffix(t, u)
    ensures HasSuffix(s, u)
  {
    assert s[|s| - |t|..][|t| - |u|..] == s[|s| - |u|..];
  }

  lemma PlainPathIsClean(k: Key, resource: string)
    requires PlainKey(k, resource)
    ensures Filename(k, resource) != "" && Loadable(Filename(k, resource))
    ensures Paths.Join([Filename(k, resource)]) == Filename(k, resource)
  {
    var segs := Segments(k, resource);
    FilenameSegments(k, resource);
    Paths.JoinPlain(segs);
    JoinEndsWithLast(segs, '/');
    assert segs[|segs| - 1] == resource + ".yaml";
    SuffixOfSuffix(Filename(k, resource), resource + ".yaml", ".yaml");
  }

  /** `out` is the packing of the keys `ks`, one list each. */
  ghost predicate PacksKeys(rs: seq<ObjectResource>, out: seq<PackedResource>, ks: seq<Key>)
  {
    && Distinct(ks)
    && |out| == |ks|
    && forall i :: 0 <= i < |ks| ==> ks[i] in KeysOf(rs) && out[i] == PackedFor(rs, ks[i])
  }

  ghost predicate HoldsPacked(rs: seq<ObjectResource>, files: Files, ks: seq<Key>)
  {
    && (forall k :: k in ks ==>
        k in KeysOf(rs) && PathOf(rs, k) in files && files[PathOf(rs, k)] == ListFile(ListFor(rs, k)))
    && (forall p :: p in files ==> exists k :: k in ks && p == PathOf(rs, k))
  }

  lemma HoldsNothing(rs: seq<ObjectResource>)
    ensures HoldsPacked(rs, map[], [])
  {
  }

  /** Written to an empty directory, every packed list is in the file of its key and there is no other file. */
  lemma {:induction false} WrittenFiles(d: Discovery, rs: seq<ObjectResource>, out: seq<PackedResource>, ks: seq<Key>)
    requires Packable(d, rs) && PacksKeys(rs, out, ks)
    ensures HoldsPacked(rs, WriteAll(map[], out), ks)
  {
    hide PathOf, ListFor, KeysOf, Filename, TypeOf, HoldsPacked, Packable, Paths.Join;
    if ks == [] {
      HoldsNothing(rs);
    } else {
      var n := |ks| - 1;
      var before := WriteAll(map[], out[..n]);
      WrittenFiles(d, rs, out[..n], ks[..n]);
      PathIsClean(d, rs, ks[n]);
      forall k | k in ks[..n] ensures PathOf(rs, k) != PathOf(rs, ks[n]) {
        HoldsAt(rs, before, ks[..n], k);
        if PathOf(rs, k) == PathOf(rs, ks[n]) { KeysGetDistinctFiles(d, rs, k, ks[n]); }
      }
      assert ks == ks[..n] + [ks[n]];
      HoldsOneMore(rs, before, ks[..n], ks[n]);
    }
  }

  lemma HoldsOneMore(rs: seq<ObjectResource>, files: Files, ks: seq<Key>, k: Key)
    requires HoldsPacked(rs, files, ks) && k in KeysOf(rs)
    requires forall k' :: k' in ks ==> PathOf(rs, k') != PathOf(rs, k)
    ensures HoldsPacked(rs, files[PathOf(rs, k) := ListFile(ListFor(rs, k))], ks + [k])
  {
    hide PathOf, ListFor, KeysOf;
    var after := files[PathOf(rs, k) := ListFile(ListFor(rs, k))];
    forall p | p in after ensures exists k' :: k' in ks + [k] && p == PathOf(rs, k') {
      if p in files && p != PathOf(rs, k) {
        var k' :| k' in ks && p == PathOf(rs, k');
        assert k' in ks + [k];
      } else {
        assert k in ks + [k];
      }
    }
  }

  lemma HoldsAt(rs: seq<ObjectResource>, files: Files, ks: seq<Key>, k: Key)
    requires HoldsPacked(rs, files, ks) && k in ks
    ensures k in KeysOf(rs) && PathOf(rs, k) in files && files[PathOf(rs, k)] == ListFile(ListFor(rs, k))
  {
    hide PathOf, ListFor, KeysOf;
  }

  lemma HoldsOnly(rs: seq<ObjectResource>, files: Files, ks: seq<Key>, p: string) returns (k: Key)
    requires HoldsPacked(rs, files, ks) && p in files
    ensures k in ks && p == PathOf(rs, k)
  {
    hide PathOf, ListFor, KeysOf;
    k :| k in ks && p == PathOf(rs, k);
  }

  lemma ObjectDiscovered(d: Discovery, rs: seq<ObjectResource>, o: Object)
    requires Packable(d, rs) && o in Contents(rs)
    ensures FindGVR(d, o.gvk).Ok?
  {
    var i :| 0 <= i < |rs| && rs[i].content == o;
    assert rs[i] in rs;
  }

  /** A resource read back: its type is the one discovery gives its kind. */
  predicate Discovered(d: Discovery, r: ObjectResource)
  {
    FindGVR(d, r.content.gvk) == Ok(r.resourceType)
  }

  lemma {:induction false} ItemsReadBack(d: Discovery, path: string, items: seq<Object>)
    requires forall o :: o in items ==> FindGVR(d, o.gvk).Ok?
    ensures ItemResources(d, path, items).Some?
    ensures Contents(ItemResources(d, path, items).value) == items
    ensures forall r :: r in ItemResources(d, path, items).value ==> Discovered(d, r)
  {
    if items != [] {
      var n := |items| - 1;
      assert items[n] in items;
      ItemsReadBack(d, path, items[..n]);
    }
  }

  lemma ContentsAppend(a: seq<ObjectResource>, b: seq<ObjectResource>)
    ensures Contents(a + b) == Contents(a) + Contents(b)
  {
  }

  /** Reading the file of a key gives back exactly the inputs of that key, in order. */
  lemma KeyReadBack(d: Discovery, rs: seq<ObjectResource>, files: Files, ks: seq<Key>, k: Key)
    requires Packable(d, rs) && HoldsPacked(rs, files, ks) && k in ks
    ensures Readable(d, files, PathOf(rs, k))
    ensures
      var read := FileResources(d, PathOf(rs, k), files[PathOf(rs, k)]).value;
      Contents(read) == ItemsOf(rs, k) && forall r :: r in read ==> Discovered(d, r)
  {
    hide PathOf, KeysOf, GuessListKind, HoldsPacked, Packable, ItemsOf, Contents;
    HoldsAt(rs, files, ks, k);
    ItemsNonEmpty(rs, k);
    forall o | o in ItemsOf(rs, k) ensures FindGVR(d, o.gvk).Ok? { ObjectDiscovered(d, rs, o); }
    ItemsReadBack(d, PathOf(rs, k), ItemsOf(rs, k));
  }

  lemma ItemsOfItems(rs: seq<ObjectResource>, k1: Key, k2: Key)
    ensures Filter(ItemsOf(rs, k1), InKey(k2)) == if k1 == k2 then ItemsOf(rs, k1) else []
  {
    ItemsNonEmpty(rs, k1);
    if k1 == k2 {
      FilterEverything(ItemsOf(rs, k1), InKey(k2));
    } else {
      FilterNothing(ItemsOf(rs, k1), InKey(k2));
    }
  }

  lemma ReadBackStep(rs: seq<ObjectResource>, before: seq<ObjectResource>, read: seq<ObjectResource>, k': Key, k: Key)
    requires Contents(read) == ItemsOf(rs, k')
    ensures ItemsOf(before + read, k) == ItemsOf(before, k) + if k' == k then ItemsOf(rs, k) else []
  {
    ContentsAppend(before, read);
    FilterAppend(Contents(before), Contents(read), InKey(k));
    ItemsOfItems(rs, k', k);
  }

  lemma NoItems(k: Key)
    ensures ItemsOf([], k) == []
  {
  }

  /** Whatever order the files are read in, each key's items come back in input order. */
  lemma {:induction false} ReadBackItems(
    d: Discovery, rs: seq<ObjectResource>, files: Files, ks: seq<Key>, order: seq<string>, k: Key)
    requires Packable(d, rs) && HoldsPacked(rs, files, ks) && Distinct(order)
    requires forall p :: p in order ==> p in files
    requires k in KeysOf(rs)
    ensures ItemsOf(ReadInOrder(d, files, order), k) == if PathOf(rs, k) in order then ItemsOf(rs, k) else []
  {
    hide PathOf, KeysOf, ListFor, HoldsPacked, Packable, FileResources, ItemsOf, Contents;
    NoItems(k);
    if order != [] {
      var n := |order| - 1;
      var path := order[n];
      ReadBackItems(d, rs, files, ks, order[..n], k);
      assert path in order;
      var k' := HoldsOnly(rs, files, ks, path);
      HoldsAt(rs, files, ks, k');
      KeyReadBack(d, rs, files, ks, k');
      var before, read := ReadInOrder(d, files, order[..n]), FileResources(d, path, files[path]).value;
      ReadBackStep(rs, before, read, k', k);
      assert order == order[..n] + [path];
      if PathOf(rs, k) == path {
        KeysGetDistinctFiles(d, rs, k, k');
        assert path !in order[..n];
      }
    }
  }

  lemma {:induction false} ReadBackDiscovered(
    d: Discovery, rs: seq<ObjectResource>, files: Files, ks: seq<Key>, order: seq<string>)
    requires Packable(d, rs) && HoldsPacked(rs, files, ks)
    requires forall p :: p in order ==> p in files
    ensures forall r :: r in ReadInOrder(d, files, order) ==> r.content in Contents(rs) && Discovered(d, r)
  {
    if order != [] {
      var n := |order| - 1;
      var path := order[n];
      ReadBackDiscovered(d, rs, files, ks, order[..n]);
      assert path in order;
      var k := HoldsOnly(rs, files, ks, path);
      KeyReadBack(d, rs, files, ks, k);
      ItemsNonEmpty(rs, k);
      var read := FileResources(d, path, files[path]).value;
      forall r | r in read ensures r.content in Contents(rs) { InContents(read, r); }
    }
  }

  /** `back` has the same keys as `rs`, each with the same items, and the types discovery gives. */
  ghost predicate SameGroups(d: Discovery, rs: seq<ObjectResource>, back: seq<ObjectResource>)
  {
    && KeysOf(back) == KeysOf(rs)
    && (forall k :: k in KeysOf(rs) ==> ItemsOf(back, k) == ItemsOf(rs, k))
    && (forall r :: r in back ==> r.content in Contents(rs) && Discovered(d, r))
  }

  lemma ReadBackGroups(d: Discovery, rs: seq<ObjectResource>, files: Files, ks: seq<Key>, order: seq<string>)
    requires Packable(d, rs) && HoldsPacked(rs, files, ks) && Enumerates(ks, KeysOf(rs)) &&
      Enumerates(order, files.Keys)
    ensures SameGroups(d, rs, ReadInOrder(d, files, order))
  {
    hide PathOf, ListFor, ReadInOrder, HoldsPacked, Packable, ItemsOf;
    var back := ReadInOrder(d, files, order);
    ReadBackDiscovered(d, rs, files, ks, order);
    forall k | k in KeysOf(rs) ensures ItemsOf(back, k) == ItemsOf(rs, k) && k in KeysOf(back) {
      HoldsAt(rs, files, ks, k);
      ReadBackItems(d, rs, files, ks, order, k);
      ItemsNonEmpty(rs, k);
      ItemsNonEmpty(back, k);
    }
    forall k | k in KeysOf(back) ensures k in KeysOf(rs) {
      var o :| o in Contents(back) && KeyOf(o) == k;
      var i :| 0 <= i < |back| && back[i].content == o;
      assert back[i] in back;
    }
  }

  /** Same groups, same packed list for every key. */
  lemma SameGroupsPackAlike(d: Discovery, rs: seq<ObjectResource>, back: seq<ObjectResource>, k: Key)
    requires Packable(d, rs) && SameGroups(d, rs, back) && k in KeysOf(rs)
    ensures PackedFor(back, k) == PackedFor(rs, k)
  {
    hide Filename, ItemsOf, KeysOf, TypeOf, GuessListKind;
    var r := KeyWitness(d, rs, k);
    KeyKindKnown(back, k);
    TypeKnown(back, k.gk);
    var t :| t in back && t.content.GroupKind() == k.gk && t.resourceType == TypeOf(back, k.gk).value;
    var i :| 0 <= i < |rs| && rs[i].content == t.content;
    assert rs[i] in rs && rs[i].content.GroupKind() == r.content.GroupKind();
    assert t.content.gvk == r.content.gvk;
    assert Typed(d, r) && Discovered(d, t);
  }

  lemma SameGroupsOneVersion(d: Discovery, rs: seq<ObjectResource>, back: seq<ObjectResource>)
    requires Packable(d, rs) && SameGroups(d, rs, back)
    ensures OneVersionPerKind(back)
  {
    forall a, b | a in back && b in back && a.content.GroupKind() == b.content.GroupKind()
      ensures a.content.gvk.version == b.content.gvk.version
    {
      var i :| 0 <= i < |rs| && rs[i].content == a.content;
      var j :| 0 <= j < |rs| && rs[j].content == b.content;
      assert rs[i] in rs && rs[j] in rs;
    }
  }

  lemma PackingsDistinct(d: Discovery, rs: seq<ObjectResource>, out: seq<PackedResource>, ks: seq<Key>)
    requires Packable(d, rs) && PacksInOrder(rs, out, ks)
    ensures DistinctKeys(out, FilenameOf)
  {
    forall i, j | 0 <= i < j < |out| ensures FilenameOf(out[i]) != FilenameOf(out[j]) {
      PathIsClean(d, rs, ks[i]);
      PathIsClean(d, rs, ks[j]);
      if PathOf(rs, ks[i]) == PathOf(rs, ks[j]) {
        KeysGetDistinctFiles(d, rs, ks[i], ks[j]);
      }
    }
  }

  /** Any two packings of inputs with the same groups are equivalent, whatever order the maps were iterated in. */
  lemma SameGroupsEquivalent(
    d: Discovery, rs: seq<ObjectResource>, back: seq<ObjectResource>, out: seq<PackedResource>,
    out': seq<PackedResource>)
    requires Packable(d, rs) && SameGroups(d, rs, back)
    requires IsPacking(rs, out) && IsPacking(back, out')
    ensures multiset(out) == multiset(out')
    ensures Reasons(out, out') == []
  {
    var ks :| PacksInOrder(rs, out, ks);
    var ks' :| PacksInOrder(back, out', ks');
    forall i | 0 <= i < |ks'| ensures ks'[i] in KeysOf(rs) && out'[i] == PackedFor(rs, ks'[i]) {
      assert ks'[i] in ks';
      SameGroupsPackAlike(d, rs, back, ks'[i]);
    }
    assert PacksInOrder(rs, out', ks');
    PackingsDistinct(d, rs, out, ks);
    PackingsDistinct(d, rs, out', ks');
    SamePackedSet(rs, out, ks, out', ks');
    SamePackedSet(rs, out', ks', out, ks);
    DistinctSameSet(out, out');
    EquivalentIsMapEquality(out, out');
    PairsOfPermutation(out, out');
  }

  lemma SamePackedSet(
    rs: seq<ObjectResource>, out: seq<PackedResource>, ks: seq<Key>, out': seq<PackedResource>, ks': seq<Key>)
    requires PacksInOrder(rs, out, ks) && PacksInOrder(rs, out', ks')
    ensures forall x :: x in out ==> x in out'
  {
    forall x | x in out ensures x in out' {
      var i :| 0 <= i < |out| && out[i] == x;
      assert ks[i] in ks && ks[i] in ks';
      var j :| 0 <= j < |ks'| && ks'[j] == ks[i];
      assert out'[j] == x;
    }
  }

  lemma DistinctSameSet(a: seq<PackedResource>, b: seq<PackedResource>)
    requires DistinctKeys(a, FilenameOf) && DistinctKeys(b, FilenameOf)
    requires forall x :: x in a ==> x in b
    requires forall x :: x in b ==> x in a
    ensures multiset(a) == multiset(b)
  {
    forall i, j | 0 <= i < j < |a| ensures a[i] != a[j] { assert FilenameOf(a[i]) != FilenameOf(a[j]); }
    forall i, j | 0 <= i < j < |b| ensures b[i] != b[j] { assert FilenameOf(b[i]) != FilenameOf(b[j]); }
    DistinctPermutation(a, b);
  }

  /** Pack/unpack round trip. Pack, write to an empty directory, read every file back in any order, pack again: the
      reading succeeds, the packing succeeds, and the two packings are the same files with the same contents, for
      every order in which the maps are iterated. */
  lemma PackRoundTrip(
    d: Discovery, rs: seq<ObjectResource>, out: seq<PackedResource>, order: seq<string>, out': seq<PackedResource>)
    requires Packable(d, rs) && IsPacking(rs, out)
    requires Enumerates(order, WriteAll(map[], out).Keys)
    requires IsPacking(ReadInOrder(d, WriteAll(map[], out), order), out')
    ensures forall path :: path in WriteAll(map[], out) ==> Loadable(path) && Readable(d, WriteAll(map[], out), path)
    ensures OneVersionPerKind(ReadInOrder(d, WriteAll(map[], out), order))
    ensures multiset(out) == multiset(out')
    ensures Reasons(out, out') == []
  {
    hide PathOf, ListFor, KeysOf, PackedFor;
    var ks :| PacksInOrder(rs, out, ks);
    var files := WriteAll(map[], out);
    WrittenFiles(d, rs, out, ks);
    forall path | path in files ensures Loadable(path) && Readable(d, files, path) {
      var k :| k in ks && path == PathOf(rs, k);
      PathIsClean(d, rs, k);
      KeyReadBack(d, rs, files, ks, k);
    }
    ReadBackGroups(d, rs, files, ks, order);
    SameGroupsOneVersion(d, rs, ReadInOrder(d, files, order));
    SameGroupsEquivalent(d, rs, ReadInOrder(d, files, order), out, out');
  }

  /** The path of the list file that a resource goes into. */
  function FileOf(r: ObjectResource): string
  {
    SpelledPath(r.content.namespace, r.content.gvk.group, r.resourceType.resource)
  }

  lemma KeyPath(d: Discovery, rs: seq<ObjectResource>, r: ObjectResource)
    requires Packable(d, rs) && r in rs
    ensures KeyOf(r.content) in KeysOf(rs) && PathOf(rs, KeyOf(r.content)) == FileOf(r)
  {
    hide SpelledPath, Filename;
    var k := KeyOf(r.content);
    InContents(rs, r);
    var w := KeyWitness(d, rs, k);
    assert Typed(d, r) && Typed(d, w) && OneVersionPerKind(rs);
    assert r.resourceType == w.resourceType;
    FilenameSegments(k, r.resourceType.resource);
  }

  /** Where the objects are, in plain words: every input is in the list file named by its namespace, group and resource,
      which holds the inputs of its group, kind and namespace, in input order; and there is no other file. */
  lemma ObjectsAreFiled(d: Discovery, rs: seq<ObjectResource>, out: seq<PackedResource>)
    requires Packable(d, rs) && IsPacking(rs, out)
    ensures forall r :: r in rs ==>
              && FileOf(r) in WriteAll(map[], out)
              && WriteAll(map[], out)[FileOf(r)] ==
                 ListFile(
                   ListObject(
                     GVK(r.content.gvk.group, r.content.gvk.version, r.content.gvk.kind + "List"),
                     Filter(Contents(rs), Together(r.content))))
    ensures forall path :: path in WriteAll(map[], out) ==> exists r :: r in rs && path == FileOf(r)
  {
    hide PathOf, KeysOf, WriteAll, FileOf, ItemsOf, Contents, Together, HoldsPacked;
    var ks: seq<Key> :| PacksInOrder(rs, out, ks);
    var files := WriteAll(map[], out);
    WrittenFiles(d, rs, out, ks);
    forall r | r in rs
      ensures FileOf(r) in files
      ensures files[FileOf(r)] ==
              ListFile(
                ListObject(
                  GVK(r.content.gvk.group, r.content.gvk.version, r.content.gvk.kind + "List"),
                  Filter(Contents(rs), Together(r.content))))
    {
      var k := KeyOf(r.content);
      KeyPath(d, rs, r);
      HoldsAt(rs, files, ks, k);
      PackedListUniform(rs, k);
      InContents(rs, r);
      ItemsNonEmpty(rs, k);
      ItemsTogether(rs, r.content);
    }
    forall path | path in files ensures exists r :: r in rs && path == FileOf(r) {
      var k := HoldsOnly(rs, files, ks, path);
      var r := KeyWitness(d, rs, k);
      KeyPath(d, rs, r);
    }
  }

  /** Reading every file back, in any order, gives every object as often as it went in, in input order within its group,
      kind and namespace; every resource read is under its file and has the type its object had. */
  lemma ObjectsComeBack(d: Discovery, rs: seq<ObjectResource>, out: seq<PackedResource>, order: seq<string>)
    requires Packable(d, rs) && IsPacking(rs, out) && Enumerates(order, WriteAll(map[], out).Keys)
    ensures
      var back := ReadInOrder(d, WriteAll(map[], out), order);
      && multiset(Contents(back)) == multiset(Contents(rs))
      && (forall o :: o in Contents(rs) ==>
            Filter(Contents(back), Together(o)) == Filter(Contents(rs), Together(o)))
      && forall r :: r in back ==>
           exists s :: s in rs && r.content == s.content && r.resourceType == s.resourceType
  {
    hide PathOf, KeysOf, WriteAll, ItemsOf, Contents, Together, Packable, ReadInOrder;
    var ks: seq<Key> :| PacksInOrder(rs, out, ks);
    var back := ReadInOrder(d, WriteAll(map[], out), order);
    WrittenFiles(d, rs, out, ks);
    ReadBackGroups(d, rs, WriteAll(map[], out), ks, order);
    forall o ensures multiset(Contents(back))[o] == multiset(Contents(rs))[o] {
      ItemsOfCount(back, KeyOf(o), o);
      ItemsOfCount(rs, KeyOf(o), o);
      OutsideKeys(back, o);
      OutsideKeys(rs, o);
    }
    forall o | o in Contents(rs) ensures Filter(Contents(back), Together(o)) == Filter(Contents(rs), Together(o)) {
      OutsideKeys(rs, o);
      ItemsTogether(back, o);
      ItemsTogether(rs, o);
    }
    forall r | r in back ensures exists s :: s in rs && r.content == s.content && r.resourceType == s.resourceType {
      var s := Original(d, rs, r);
    }
  }

  lemma OutsideKeys(rs: seq<ObjectResource>, o: Object)
    ensures o in Contents(rs) ==> KeyOf(o) in KeysOf(rs)
    ensures o !in Contents(rs) ==> multiset(Contents(rs))[o] == 0
    ensures KeyOf(o) !in KeysOf(rs) ==> multiset(Contents(rs))[o] == 0
  {
  }

  lemma Original(d: Discovery, rs: seq<ObjectResource>, r: ObjectResource) returns (s: ObjectResource)
    requires Packable(d, rs) && r.content in Contents(rs) && Discovered(d, r)
    ensures s in rs && r.content == s.content && r.resourceType == s.resourceType
  {
    var i :| 0 <= i < |rs| && rs[i].content == r.content;
    s := rs[i];
    assert Typed(d, s);
  }
}
