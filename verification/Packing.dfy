/** prune_mustgather.go: packing resources into one list file per group, kind and namespace. */
module Packing {
  import opened Seqs
  import opened GoStrings
  import opened Kube
  import Paths

  /** An unstructured list: its own type and its items. */
  datatype ListObject = ListObject(gvk: GVK, items: seq<Object>)

  type PackedResource = Resource<ListObject>

  datatype Key = Key(gk: GK, namespace: string)

  function KeyOf(o: Object): Key
  {
    Key(o.GroupKind(), o.namespace)
  }

  function InKey(k: Key): Object -> bool
  {
    o => KeyOf(o) == k
  }

  function Contents(rs: seq<ObjectResource>): seq<Object>
  {
    seq(|rs|, i requires 0 <= i < |rs| => rs[i].content)
  }

  /** The inputs that belong in the list of key `k`, in input order. */
  function ItemsOf(rs: seq<ObjectResource>, k: Key): seq<Object>
  {
    Filter(Contents(rs), InKey(k))
  }

  ghost function KeysOf(rs: seq<ObjectResource>): set<Key>
  {
    set o | o in Contents(rs) :: KeyOf(o)
  }

  ghost function KindsOf(rs: seq<ObjectResource>): set<GK>
  {
    set o | o in Contents(rs) :: o.GroupKind()
  }

  ghost function VersionsOf(rs: seq<ObjectResource>, gk: GK): set<string>
  {
    set o | o in Contents(rs) && o.GroupKind() == gk :: o.gvk.version
  }

  /** The resource type recorded for a group-kind: the last one seen. */
  function TypeOf(rs: seq<ObjectResource>, gk: GK): Option<GVR>
  {
    if rs == [] then None
    else if rs[|rs| - 1].content.GroupKind() == gk then Some(rs[|rs| - 1].resourceType)
    else TypeOf(rs[..|rs| - 1], gk)
  }

  function GuessListKind(o: Object): GVK
  {
    GVK(o.gvk.group, o.gvk.version, o.gvk.kind + "List")
  }

  function Scope(namespace: string): string
  {
    if |namespace| > 0 then "namespaces" else "cluster-scoped-resources"
  }

  function GroupDirectory(group: string): string
  {
    if |group| == 0 then "core" else group
  }

  function Filename(k: Key, resource: string): string
  {
    Paths.Join([Scope(k.namespace), k.namespace, GroupDirectory(k.gk.group), resource + ".yaml"])
  }

  lemma ItemsStep(rs: seq<ObjectResource>, curr: ObjectResource, k: Key)
    ensures ItemsOf(rs + [curr], k) == ItemsOf(rs, k) + if KeyOf(curr.content) == k then [curr.content] else []
  {
    assert Contents(rs + [curr]) == Contents(rs) + [curr.content];
    assert (Contents(rs) + [curr.content])[..|rs|] == Contents(rs);
  }

  /** A key has a list exactly when some input has that key. */
  lemma ItemsNonEmpty(rs: seq<ObjectResource>, k: Key)
    ensures k in KeysOf(rs) <==> ItemsOf(rs, k) != []
    ensures forall o :: o in ItemsOf(rs, k) <==> o in Contents(rs) && KeyOf(o) == k
  {
    FilterIn(Contents(rs), InKey(k));
    if ItemsOf(rs, k) != [] {
      assert ItemsOf(rs, k)[0] in ItemsOf(rs, k);
    }
    if k in KeysOf(rs) {
      var o :| o in Contents(rs) && KeyOf(o) == k;
      assert o in ItemsOf(rs, k);
    }
  }

  lemma {:induction false} TypeKnown(rs: seq<ObjectResource>, gk: GK)
    ensures TypeOf(rs, gk).Some? <==> gk in KindsOf(rs)
    ensures TypeOf(rs, gk).Some? ==>
            exists r :: r in rs && r.content.GroupKind() == gk && r.resourceType == TypeOf(rs, gk).value
  {
    if rs != [] {
      var n := |rs| - 1;
      TypeKnown(rs[..n], gk);
      assert Contents(rs) == Contents(rs[..n]) + [rs[n].content];
      assert rs[n] in rs;
    }
  }

  /** The list a key is packed into. */
  ghost function ListFor(rs: seq<ObjectResource>, k: Key): ListObject
    requires k in KeysOf(rs)
  {
    ItemsNonEmpty(rs, k);
    ListObject(GuessListKind(ItemsOf(rs, k)[0]), ItemsOf(rs, k))
  }

  ghost function PackedFor(rs: seq<ObjectResource>, k: Key): PackedResource
    requires k in KeysOf(rs)
  {
    TypeKnown(rs, k.gk);
    var gvr := TypeOf(rs, k.gk).value;
    Resource(Filename(k, gvr.resource), gvr, ListFor(rs, k))
  }

  /** `out` holds one packed list per key, in the order `ks`. */
  ghost predicate PacksInOrder(rs: seq<ObjectResource>, out: seq<PackedResource>, ks: seq<Key>)
  {
    && Enumerates(ks, KeysOf(rs))
    && |out| == |ks|
    && forall i :: 0 <= i < |ks| ==> ks[i] in KeysOf(rs) && out[i] == PackedFor(rs, ks[i])
  }

  /** `out` is a packing of `rs`, for some order of iteration over the map of lists. */
  ghost predicate IsPacking(rs: seq<ObjectResource>, out: seq<PackedResource>)
  {
    exists ks :: PacksInOrder(rs, out, ks)
  }

  ghost predicate OneVersionPerKind(rs: seq<ObjectResource>)
  {
    forall a, b :: a in rs && b in rs && a.content.GroupKind() == b.content.GroupKind()
                   ==> a.content.gvk.version == b.content.gvk.version
  }

  /** The group-kinds that occur with several versions. */
  ghost function Ambiguous(rs: seq<ObjectResource>): set<GK>
  {
    set gk | gk in KindsOf(rs) && |VersionsOf(rs, gk)| != 1
  }

  datatype Packed = Packed(out: seq<PackedResource>) | MultipleVersions(kinds: seq<GK>)

  ghost predicate VersionsGrouped(rs: seq<ObjectResource>, versions: map<GK, set<string>>)
  {
    versions.Keys == KindsOf(rs) && forall gk :: gk in versions ==> versions[gk] == VersionsOf(rs, gk)
  }

  ghost predicate TypesGrouped(rs: seq<ObjectResource>, types: map<GK, GVR>)
  {
    types.Keys == KindsOf(rs) && forall gk :: gk in types ==> TypeOf(rs, gk) == Some(types[gk])
  }

  ghost predicate ListsGrouped(rs: seq<ObjectResource>, lists: map<Key, ListObject>)
  {
    lists.Keys == KeysOf(rs) && forall k :: k in lists ==> lists[k] == ListFor(rs, k)
  }

  lemma VersionsStep(rs: seq<ObjectResource>, curr: ObjectResource, versions: map<GK, set<string>>)
    requires VersionsGrouped(rs, versions)
    ensures
      var gk := curr.content.GroupKind();
      VersionsGrouped(rs + [curr],
        versions[gk := (if gk in versions then versions[gk] else {}) + {curr.content.gvk.version}])
  {
    assert Contents(rs + [curr]) == Contents(rs) + [curr.content];
  }

  lemma TypesStep(rs: seq<ObjectResource>, curr: ObjectResource, types: map<GK, GVR>)
    requires TypesGrouped(rs, types)
    ensures TypesGrouped(rs + [curr], types[curr.content.GroupKind() := curr.resourceType])
  {
    assert Contents(rs + [curr]) == Contents(rs) + [curr.content];
    assert (rs + [curr])[..|rs|] == rs;
  }

  /** One input more grows the list of its key, and no other. */
  lemma ListForStep(rs: seq<ObjectResource>, curr: ObjectResource, k: Key)
    requires k in KeysOf(rs + [curr])
    ensures k != KeyOf(curr.content) ==> k in KeysOf(rs) && ListFor(rs + [curr], k) == ListFor(rs, k)
    ensures k == KeyOf(curr.content) && k in KeysOf(rs) ==>
              ListFor(rs + [curr], k) == ListObject(ListFor(rs, k).gvk, ListFor(rs, k).items + [curr.content])
    ensures k == KeyOf(curr.content) && k !in KeysOf(rs) ==>
              ListFor(rs + [curr], k) == ListObject(GuessListKind(curr.content), [curr.content])
  {
    ItemsStep(rs, curr, k);
    ItemsNonEmpty(rs, k);
    ItemsNonEmpty(rs + [curr], k);
  }

  lemma KeysStep(rs: seq<ObjectResource>, curr: ObjectResource)
    ensures KeysOf(rs + [curr]) == KeysOf(rs) + {KeyOf(curr.content)}
  {
    assert Contents(rs + [curr]) == Contents(rs) + [curr.content];
  }

  lemma ListsStep(rs: seq<ObjectResource>, curr: ObjectResource, lists: map<Key, ListObject>)
    requires ListsGrouped(rs, lists)
    ensures
      var key := KeyOf(curr.content);
      var existing := if key in lists then lists[key] else ListObject(GuessListKind(curr.content), []);
      ListsGrouped(rs + [curr], lists[key := existing.(items := existing.items + [curr.content])])
  {
    hide ListFor, KeysOf, GuessListKind;
    KeysStep(rs, curr);
    forall k | k in KeysOf(rs + [curr]) { ListForStep(rs, curr, k); }
  }

  /** The grouping loop: three maps updated together, each list growing in place. */
  method Group(rs: seq<ObjectResource>)
    returns (versions: map<GK, set<string>>, types: map<GK, GVR>, lists: map<Key, ListObject>)
    ensures VersionsGrouped(rs, versions) && TypesGrouped(rs, types) && ListsGrouped(rs, lists)
  {
    versions, types, lists := map[], map[], map[];
    for i := 0 to |rs|
      invariant VersionsGrouped(rs[..i], versions)
      invariant TypesGrouped(rs[..i], types)
      invariant ListsGrouped(rs[..i], lists)
    {
      var curr := rs[i];
      assert rs[..i + 1] == rs[..i] + [curr];
      VersionsStep(rs[..i], curr, versions);
      TypesStep(rs[..i], curr, types);
      ListsStep(rs[..i], curr, lists);
      var gk := curr.content.GroupKind();
      var existingVersions := if gk in versions then versions[gk] else {};
      versions := versions[gk := existingVersions + {curr.content.gvk.version}];
      types := types[gk := curr.resourceType];
      var key := KeyOf(curr.content);
      var existing := if key in lists then lists[key] else ListObject(GuessListKind(curr.content), []);
      lists := lists[key := existing.(items := existing.items + [curr.content])];
    }
    assert rs[..|rs|] == rs;
  }

  /** One error per group-kind with more than one version, in map iteration order. */
  method VersionErrors(versions: map<GK, set<string>>) returns (kinds: seq<GK>)
    ensures Enumerates(kinds, set gk | gk in versions && |versions[gk]| != 1)
  {
    kinds := [];
    var todo := versions.Keys;
    while todo != {}
      invariant todo <= versions.Keys
      invariant Distinct(kinds)
      invariant forall gk :: gk in kinds <==> gk in versions && gk !in todo && |versions[gk]| != 1
    {
      var gk :| gk in todo;
      todo := todo - {gk};
      if |versions[gk]| != 1 {
        kinds := kinds + [gk];
      }
    }
  }

  method FilenameFor(k: Key, resource: string) returns (filename: string)
    ensures filename == Filename(k, resource)
  {
    var namespacedString := "REPLACE_ME";
    if |k.namespace| > 0 {
      namespacedString := "namespaces";
    } else {
      namespacedString := "cluster-scoped-resources";
    }
    var groupString := k.gk.group;
    if |groupString| == 0 {
      groupString := "core";
    }
    filename := Paths.Join([namespacedString, k.namespace, groupString, resource + ".yaml"]);
  }

  /** `out` holds one packed list per key of the map of lists, in the order `ks`. */
  ghost predicate EmitsInOrder(types: map<GK, GVR>, lists: map<Key, ListObject>, out: seq<PackedResource>, ks: seq<Key>)
    requires forall k :: k in lists ==> k.gk in types
  {
    && Enumerates(ks, lists.Keys) && |out| == |ks|
    && forall i :: 0 <= i < |ks| ==> ks[i] in lists && out[i] == Emitted(types, lists, ks[i])
  }

  /** One packed list per key of the map of lists, in map iteration order. */
  method EmitLists(types: map<GK, GVR>, lists: map<Key, ListObject>) returns (out: seq<PackedResource>)
    requires forall k :: k in lists ==> k.gk in types
    ensures exists ks :: EmitsInOrder(types, lists, out, ks)
  {
    out := [];
    ghost var ks: seq<Key> := [];
    var todo := lists.Keys;
    while todo != {}
      invariant todo <= lists.Keys
      invariant Distinct(ks)
      invariant forall k :: k in ks <==> k in lists && k !in todo
      invariant |out| == |ks|
      invariant forall i :: 0 <= i < |ks| ==> ks[i] in lists && out[i] == Emitted(types, lists, ks[i])
    {
      var k :| k in todo;
      todo := todo - {k};
      var resourceType := types[k.gk];
      var filename := FilenameFor(k, resourceType.resource);
      out := out + [Resource(filename, resourceType, lists[k])];
      ks := ks + [k];
    }
    assert EmitsInOrder(types, lists, out, ks);
  }

  function Emitted(types: map<GK, GVR>, lists: map<Key, ListObject>, k: Key): PackedResource
    requires k in lists && k.gk in types
  {
    Resource(Filename(k, types[k.gk].resource), types[k.gk], lists[k])
  }

  lemma EmittedIsPacked(rs: seq<ObjectResource>, types: map<GK, GVR>, lists: map<Key, ListObject>, k: Key)
    requires TypesGrouped(rs, types) && ListsGrouped(rs, lists)
    requires k in lists
    ensures k in KeysOf(rs) && k.gk in types && Emitted(types, lists, k) == PackedFor(rs, k)
  {
    KeyKindKnown(rs, k);
  }

  lemma KeyKindKnown(rs: seq<ObjectResource>, k: Key)
    requires k in KeysOf(rs)
    ensures k.gk in KindsOf(rs)
  {
  }

  /** Packing succeeds exactly when every group-kind occurs with one version, and then yields one list per key. */
  method UnstructuredToMustGatherFormat(rs: seq<ObjectResource>) returns (r: Packed)
    ensures r.Packed? <==> OneVersionPerKind(rs)
    ensures r.Packed? ==> IsPacking(rs, r.out)
    ensures r.MultipleVersions? ==> Enumerates(r.kinds, Ambiguous(rs))
  {
    var versions, types, lists := Group(rs);
    var kinds := VersionErrors(versions);
    assert (set gk | gk in versions && |versions[gk]| != 1) == Ambiguous(rs);
    AmbiguousIffSeveralVersions(rs);
    if |kinds| > 0 {
      assert kinds[0] in kinds;
      return MultipleVersions(kinds);
    }
    assert Ambiguous(rs) == {} by { assert forall gk :: gk in Ambiguous(rs) ==> gk in kinds; }
    forall k | k in lists ensures k.gk in types { KeyKindKnown(rs, k); }
    var out := EmitLists(types, lists);
    ghost var ks :| EmitsInOrder(types, lists, out, ks);
    forall i | 0 <= i < |ks| ensures ks[i] in KeysOf(rs) && out[i] == PackedFor(rs, ks[i]) {
      EmittedIsPacked(rs, types, lists, ks[i]);
    }
    assert PacksInOrder(rs, out, ks);
    return Packed(out);
  }

  lemma SetOfOne<T>(s: set<T>, x: T)
    requires x in s
    ensures |s| == 1 <==> forall y :: y in s ==> y == x
  {
    assert s == (s - {x}) + {x};
    if forall y :: y in s ==> y == x {
      assert s == {x};
    }
  }

  /** Two inputs of the kind differ in version. */
  ghost predicate SeveralVersions(rs: seq<ObjectResource>, gk: GK)
  {
    exists a, b :: a in rs && b in rs && a.content.GroupKind() == gk && b.content.GroupKind() == gk
                   && a.content.gvk.version != b.content.gvk.version
  }

  lemma VersionOccurs(rs: seq<ObjectResource>, gk: GK, v: string)
    ensures v in VersionsOf(rs, gk) <==>
            exists r :: r in rs && r.content.GroupKind() == gk && r.content.gvk.version == v
  {
    if r :| r in rs && r.content.GroupKind() == gk && r.content.gvk.version == v { InContents(rs, r); }
    if v in VersionsOf(rs, gk) {
      var o :| o in Contents(rs) && o.GroupKind() == gk && o.gvk.version == v;
      var i :| 0 <= i < |rs| && rs[i].content == o;
      assert rs[i] in rs;
    }
  }

  lemma KindAmbiguous(rs: seq<ObjectResource>, gk: GK)
    ensures gk in Ambiguous(rs) <==> SeveralVersions(rs, gk)
  {
    hide VersionsOf;
    if a, b :| a in rs && b in rs && a.content.GroupKind() == gk && b.content.GroupKind() == gk
               && a.content.gvk.version != b.content.gvk.version
    {
      InContents(rs, a);
      VersionOccurs(rs, gk, a.content.gvk.version);
      VersionOccurs(rs, gk, b.content.gvk.version);
      SetOfOne(VersionsOf(rs, gk), a.content.gvk.version);
    }
    if gk in Ambiguous(rs) {
      var o :| o in Contents(rs) && o.GroupKind() == gk;
      var i :| 0 <= i < |rs| && rs[i].content == o;
      assert rs[i] in rs;
      VersionOccurs(rs, gk, o.gvk.version);
      SetOfOne(VersionsOf(rs, gk), o.gvk.version);
      var v :| v in VersionsOf(rs, gk) && v != o.gvk.version;
      VersionOccurs(rs, gk, v);
    }
  }

  /** A kind is refused exactly when two of its inputs differ in version, and none is exactly when each kind has one. */
  lemma AmbiguousIffSeveralVersions(rs: seq<ObjectResource>)
    ensures forall gk :: gk in Ambiguous(rs) <==> SeveralVersions(rs, gk)
    ensures Ambiguous(rs) == {} <==> OneVersionPerKind(rs)
  {
    hide Ambiguous;
    forall gk ensures gk in Ambiguous(rs) <==> SeveralVersions(rs, gk) { KindAmbiguous(rs, gk); }
    if !OneVersionPerKind(rs) {
      var a, b :| a in rs && b in rs && a.content.GroupKind() == b.content.GroupKind()
                  && a.content.gvk.version != b.content.gvk.version;
      assert SeveralVersions(rs, a.content.GroupKind());
    }
    if gk :| gk in Ambiguous(rs) { assert SeveralVersions(rs, gk); }
  }

  lemma InContents(rs: seq<ObjectResource>, r: ObjectResource)
    requires r in rs
    ensures r.content in Contents(rs)
  {
    var i :| 0 <= i < |rs| && rs[i] == r;
    assert Contents(rs)[i] == r.content;
  }

  function ItemsOfAll(out: seq<PackedResource>): seq<Object>
  {
    if out == [] then [] else ItemsOfAll(out[..|out| - 1]) + out[|out| - 1].content.items
  }

  lemma ItemsOfCount(rs: seq<ObjectResource>, k: Key, o: Object)
    ensures multiset(ItemsOf(rs, k))[o] == if KeyOf(o) == k then multiset(Contents(rs))[o] else 0
  {
    FilterCount(Contents(rs), InKey(k), o);
  }

  lemma {:induction false} ItemsOfAllCount(rs: seq<ObjectResource>, out: seq<PackedResource>, ks: seq<Key>, o: Object)
    requires Distinct(ks) && |out| == |ks|
    requires forall i :: 0 <= i < |ks| ==> out[i].content.items == ItemsOf(rs, ks[i])
    ensures multiset(ItemsOfAll(out))[o] == if KeyOf(o) in ks then multiset(Contents(rs))[o] else 0
  {
    hide ItemsOf;
    if ks != [] {
      var n := |ks| - 1;
      ItemsOfAllCount(rs, out[..n], ks[..n], o);
      ItemsOfCount(rs, ks[n], o);
      assert KeyOf(o) in ks <==> KeyOf(o) in ks[..n] || KeyOf(o) == ks[n];
    }
  }

  /** Packing conserves: over all lists, every input object occurs exactly as often as in the input. */
  lemma PackingConserves(rs: seq<ObjectResource>, out: seq<PackedResource>)
    requires IsPacking(rs, out)
    ensures multiset(ItemsOfAll(out)) == multiset(Contents(rs))
  {
    var ks :| PacksInOrder(rs, out, ks);
    forall o ensures multiset(ItemsOfAll(out))[o] == multiset(Contents(rs))[o] {
      ItemsOfAllCount(rs, out, ks, o);
      if o in Contents(rs) {
        assert KeyOf(o) in KeysOf(rs);
      }
    }
  }

  lemma SameKeySameListKind(rs: seq<ObjectResource>, a: Object, b: Object)
    requires OneVersionPerKind(rs)
    requires a in Contents(rs) && b in Contents(rs) && KeyOf(a) == KeyOf(b)
    ensures GuessListKind(a) == GuessListKind(b)
  {
    var i :| 0 <= i < |rs| && rs[i].content == a;
    var j :| 0 <= j < |rs| && rs[j].content == b;
    assert rs[i] in rs && rs[j] in rs;
  }

  /** Of the group, kind and namespace of `o`. */
  function Together(o: Object): Object -> bool
  {
    (p: Object) => p.gvk.group == o.gvk.group && p.gvk.kind == o.gvk.kind && p.namespace == o.namespace
  }

  lemma ItemsTogether(rs: seq<ObjectResource>, o: Object)
    ensures ItemsOf(rs, KeyOf(o)) == Filter(Contents(rs), Together(o))
  {
    FilterSame(Contents(rs), InKey(KeyOf(o)), Together(o));
  }

  /** The last input of the group and kind has the type. */
  ghost predicate LastTyped(rs: seq<ObjectResource>, o: Object, gvr: GVR)
  {
    exists m :: 0 <= m < |rs| && rs[m].resourceType == gvr
                && rs[m].content.gvk.group == o.gvk.group && rs[m].content.gvk.kind == o.gvk.kind
                && forall n :: m < n < |rs| ==>
                  rs[n].content.gvk.group != o.gvk.group || rs[n].content.gvk.kind != o.gvk.kind
  }

  lemma {:induction false} TypeIsLast(rs: seq<ObjectResource>, o: Object)
    requires TypeOf(rs, o.GroupKind()).Some?
    ensures LastTyped(rs, o, TypeOf(rs, o.GroupKind()).value)
  {
    var n := |rs| - 1;
    if rs[n].content.GroupKind() != o.GroupKind() {
      TypeIsLast(rs[..n], o);
      var gvr := TypeOf(rs[..n], o.GroupKind()).value;
      var m :| 0 <= m < n && rs[..n][m].resourceType == gvr
               && rs[..n][m].content.gvk.group == o.gvk.group && rs[..n][m].content.gvk.kind == o.gvk.kind
               && forall l :: m < l < n ==>
                 rs[..n][l].content.gvk.group != o.gvk.group || rs[..n][l].content.gvk.kind != o.gvk.kind;
      forall l | m < l < |rs|
        ensures rs[l].content.gvk.group != o.gvk.group || rs[l].content.gvk.kind != o.gvk.kind
      {
        if l < n { assert rs[..n][l] == rs[l]; }
      }
    }
  }

  /** Packing partitions: every list holds all inputs of one group, kind and namespace, in input order; no two lists
      hold inputs of the same; the type of a list is that of each of its items with "List" appended, and the resource
      type is that of the last input of the group and kind. */
  lemma PackingPartitions(rs: seq<ObjectResource>, out: seq<PackedResource>)
    requires IsPacking(rs, out) && OneVersionPerKind(rs)
    ensures forall i :: 0 <= i < |out| ==> out[i].content.items != []
    ensures forall i, o :: 0 <= i < |out| && o in out[i].content.items ==>
              && out[i].content.items == Filter(Contents(rs), Together(o))
              && out[i].content.gvk == GVK(o.gvk.group, o.gvk.version, o.gvk.kind + "List")
              && LastTyped(rs, o, out[i].resourceType)
    ensures forall i, j, o, p :: 0 <= i < j < |out| && o in out[i].content.items && p in out[j].content.items
                                 ==> !Together(o)(p)
  {
    hide LastTyped, ItemsOf, TypeOf;
    var ks: seq<Key> :| PacksInOrder(rs, out, ks);
    forall i | 0 <= i < |out|
      ensures out[i].content.items == ItemsOf(rs, ks[i]) != []
      ensures forall o :: o in out[i].content.items ==>
                KeyOf(o) == ks[i] && out[i].content.gvk == GuessListKind(o) && LastTyped(rs, o, out[i].resourceType)
    {
      PackedListUniform(rs, ks[i]);
      TypeKnown(rs, ks[i].gk);
      KeyKindKnown(rs, ks[i]);
      forall o | o in out[i].content.items ensures LastTyped(rs, o, out[i].resourceType) { TypeIsLast(rs, o); }
    }
    forall o: Object { ItemsTogether(rs, o); }
  }

  lemma PackedListUniform(rs: seq<ObjectResource>, k: Key)
    requires OneVersionPerKind(rs) && k in KeysOf(rs)
    ensures ItemsOf(rs, k) != []
    ensures forall o :: o in ItemsOf(rs, k) ==> KeyOf(o) == k && ListFor(rs, k).gvk == GuessListKind(o)
  {
    ItemsNonEmpty(rs, k);
    var first := ItemsOf(rs, k)[0];
    assert first in ItemsOf(rs, k);
    forall o | o in ItemsOf(rs, k) ensures GuessListKind(first) == GuessListKind(o) {
      SameKeySameListKind(rs, first, o);
    }
  }

  /** A key and resource whose path segments each name one directory entry. */
  predicate PlainKey(k: Key, resource: string)
  {
    && (k.namespace == "" || Paths.Plain(k.namespace))
    && (k.gk.group == "" || Paths.Plain(k.gk.group))
    && '/' !in resource
  }

  function Segments(k: Key, resource: string): seq<string>
  {
    [Scope(k.namespace)] + (if k.namespace == "" then [] else [k.namespace]) +
    [GroupDirectory(k.gk.group), resource + ".yaml"]
  }

  /** The path of a list file. */
  function SpelledPath(namespace: string, group: string, resource: string): string
  {
    var file := (if group == "" then "core" else group) + "/" + (resource + ".yaml");
    if namespace == "" then "cluster-scoped-resources" + "/" + file else "namespaces" + "/" + (namespace + "/" + file)
  }

  lemma SegmentsSpelled(k: Key, resource: string)
    ensures JoinWith(Segments(k, resource), '/') == SpelledPath(k.namespace, k.gk.group, resource)
  {
    hide JoinWith;
    var group, file := GroupDirectory(k.gk.group), resource + ".yaml";
    JoinOne(file);
    JoinBehind(group, [file]);
    if k.namespace == "" {
      JoinBehind("cluster-scoped-resources", [group] + [file]);
      assert Segments(k, resource) == ["cluster-scoped-resources"] + ([group] + [file]);
    } else {
      JoinBehind(k.namespace, [group] + [file]);
      JoinBehind("namespaces", [k.namespace] + ([group] + [file]));
      assert Segments(k, resource) == ["namespaces"] + ([k.namespace] + ([group] + [file]));
    }
  }

  /** The path of a packed file, which can be taken apart into the segments it was joined from. */
  lemma FilenameSegments(k: Key, resource: string)
    requires PlainKey(k, resource)
    ensures Filename(k, resource) == SpelledPath(k.namespace, k.gk.group, resource)
    ensures forall s :: s in Segments(k, resource) ==> Paths.Plain(s)
    ensures Filename(k, resource) == JoinWith(Segments(k, resource), '/')
    ensures Split(Filename(k, resource), '/') == Segments(k, resource)
  {
    var segs := Segments(k, resource);
    var file := resource + ".yaml";
    assert |file| >= 5 && '/' !in file;
    assert Paths.Plain(Scope(k.namespace)) && Paths.Plain(GroupDirectory(k.gk.group)) && Paths.Plain(file);
    Paths.JoinPlain(segs);
    var elems := [Scope(k.namespace), k.namespace, GroupDirectory(k.gk.group), file];
    assert Paths.NonEmpty(elems) == segs by {
      Paths.NonEmptyPlain(segs);
      assert elems[1..] == [k.namespace, GroupDirectory(k.gk.group), file];
      assert elems[1..][1..] == [GroupDirectory(k.gk.group), file];
      assert elems[1..][1..][1..] == [file];
    }
    Paths.NonEmptyPlain(segs);
    assert Filename(k, resource) == Paths.Join(elems) == Paths.Join(segs);
    hide SpelledPath;
    SegmentsSpelled(k, resource);
  }

  /** Two groups have one directory. */
  predicate SameDirectory(a: string, b: string)
  {
    a == b || (a in ["", "core"] && b in ["", "core"])
  }

  /** Two packed files get one name exactly when namespace, group directory and resource agree; so distinct keys never
      overwrite each other unless a group is literally "core" or two kinds of one group share a resource. */
  lemma FilenameInjective(k1: Key, r1: string, k2: Key, r2: string)
    requires PlainKey(k1, r1) && PlainKey(k2, r2)
    ensures Filename(k1, r1) == Filename(k2, r2) <==>
            k1.namespace == k2.namespace && SameDirectory(k1.gk.group, k2.gk.group) && r1 == r2
  {
    hide SpelledPath, Filename;
    FilenameSegments(k1, r1);
    FilenameSegments(k2, r2);
    var s1, s2 := Segments(k1, r1), Segments(k2, r2);
    if Filename(k1, r1) == Filename(k2, r2) {
      assert s1 == s2;
      assert s1[|s1| - 1] == r1 + ".yaml" && s2[|s2| - 1] == r2 + ".yaml";
      assert (r1 + ".yaml")[..|r1|] == r1 && (r2 + ".yaml")[..|r2|] == r2;
      assert |r1| == |r2|;
      assert s1[|s1| - 2] == GroupDirectory(k1.gk.group) && s2[|s2| - 2] == GroupDirectory(k2.gk.group);
      if k1.namespace != "" { assert s1[1] == k1.namespace; }
      if k2.namespace != "" { assert s2[1] == k2.namespace; }
    }
  }

  /** A group named "core" is packed into the same files as the core group. */
  lemma CoreGroupCollides(kind: string, namespace: string, resource: string)
    ensures Filename(Key(GK("core", kind), namespace), resource) == Filename(Key(GK("", kind), namespace), resource)
  {
  }
}
