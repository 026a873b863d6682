/** The directory written from a selection answers every read of the run that selected it. */
module Replay {
  import opened Seqs
  import opened Dedup
  import opened GoStrings
  import opened Kube
  import opened Packing
  import opened MustGatherDir
  import opened Prune
  import opened MustGatherClient
  import opened NamespaceOrder
  import opened RoundTrip
  import opened Sufficiency
  import Paths

  /** A type whose group and resource each name one directory entry, the group not spelled like the core directory. */
  predicate PlainType(gvr: GVR)
  {
    (gvr.group == "" || Paths.Plain(gvr.group)) && gvr.group != "core" && Paths.Plain(gvr.resource)
  }

  function TypeOfQuery(q: Query): GVR
  {
    match q
    case GetQuery(id) => id.resourceType
    case ListQuery(sel) => sel.resourceType
  }

  /** The directory holds the packed selection and nothing else. */
  ghost predicate Holds(
    d: Discovery, world: set<ObjectResource>, selected: seq<ObjectResource>, files: Files, ks: seq<Key>)
  {
    && Coherent(d, world) && (forall r :: r in selected ==> r in world)
    && DistinctKeys(selected, ID)
    && Packable(d, selected)
    && Enumerates(ks, KeysOf(selected))
    && HoldsPacked(selected, files, ks)
  }

  /** No core Namespace object is among the resources. */
  predicate NoNamespaces(selected: seq<ObjectResource>)
  {
    forall r :: r in selected ==> r.resourceType.resource != "namespaces"
  }

  function NotANamespace(): ObjectResource -> bool
  {
    (r: ObjectResource) => r.resourceType != CORE_NAMESPACES
  }

  /** The part of a selection that the directory can give back. */
  function Kept(selected: seq<ObjectResource>): seq<ObjectResource>
  {
    Filter(selected, NotANamespace())
  }

  /** Without Namespaces the whole selection is kept. */
  lemma KeptIsAll(d: Discovery, world: set<ObjectResource>, selected: seq<ObjectResource>)
    requires Coherent(d, world) && (forall r :: r in selected ==> r in world)
    ensures NoNamespaces(selected) <==> forall r :: r in selected ==> r.resourceType != CORE_NAMESPACES
    ensures NoNamespaces(selected) ==> Kept(selected) == selected
  {
    if NoNamespaces(selected) { FilterEverything(selected, NotANamespace()); }
  }

  /** The discovery of the pruned directory knows the type of the listing, and gives it the kind of the selected
      resources in scope. Core Namespaces are listed without discovery. */
  predicate ServesListing(d': Discovery, selected: seq<ObjectResource>, sel: LabelSelected)
  {
    || sel.resourceType == CORE_NAMESPACES
    || (sel.resourceType in d'.kinds
        && forall r :: r in selected && InScope(r, sel) ==> d'.kinds[sel.resourceType] == r.content.gvk)
  }

  /** Every path in the directory is a cluster-scoped list of three segments or a namespaced one of four. */
  lemma PathShapes(
    d: Discovery, rs: seq<ObjectResource>, files: Files, ks: seq<Key>, p: string)
    returns (k: Key, r: ObjectResource)
    requires Packable(d, rs) && HoldsPacked(rs, files, ks) && p in files
    ensures k in ks && k in KeysOf(rs) && p == PathOf(rs, k) && files[p] == ListFile(ListFor(rs, k))
    ensures r in rs && KeyOf(r.content) == k && TypeOf(rs, k.gk) == Some(r.resourceType)
    ensures Split(p, '/') == Segments(k, r.resourceType.resource)
  {
    k := HoldsOnly(rs, files, ks, p);
    HoldsAt(rs, files, ks, k);
    r := KeyWitness(d, rs, k);
    FilenameSegments(k, r.resourceType.resource);
  }

  lemma PlainYaml(s: string)
    requires '/' !in s
    ensures Paths.Plain(s + ".yaml")
  {
    assert |s + ".yaml"| >= 5;
  }

  /** The client's list location of a type and namespace is the packer's filename for them. */
  lemma ListLocationIsFilename(gvr: GVR, kind: string, namespace: string)
    requires PlainType(gvr) && (namespace == "" || Paths.Plain(namespace))
    ensures ListLocation(gvr, namespace) == Filename(Key(GK(gvr.group, kind), namespace), gvr.resource)
    ensures PlainKey(Key(GK(gvr.group, kind), namespace), gvr.resource)
  {
    var k := Key(GK(gvr.group, kind), namespace);
    FilenameSegments(k, gvr.resource);
    Paths.JoinPlain(Segments(k, gvr.resource));
    assert ScopeSegments(namespace) + [GroupDirectory(gvr.group), gvr.resource + ".yaml"] == Segments(k, gvr.resource);
  }

  /** The list file of a type and namespace, if present, is that of a selected key of this type and namespace. */
  lemma ListFilePresent(
    d: Discovery, rs: seq<ObjectResource>, files: Files, ks: seq<Key>, gvr: GVR, namespace: string)
    returns (k: Key, r: ObjectResource)
    requires Packable(d, rs) && HoldsPacked(rs, files, ks)
    requires PlainType(gvr) && (namespace == "" || Paths.Plain(namespace))
    requires ListLocation(gvr, namespace) in files
    ensures k in KeysOf(rs) && files[ListLocation(gvr, namespace)] == ListFile(ListFor(rs, k)) &&
            k.namespace == namespace
    ensures r in rs && KeyOf(r.content) == k && SameGroupResource(r.resourceType, gvr)
  {
    hide Filename, ListLocation, PathOf, KeysOf, ListFor, HoldsPacked, TypeOf, Segments, Split;
    k, r := PathShapes(d, rs, files, ks, ListLocation(gvr, namespace));
    SelectedPath(rs, k, r);
    ListLocationIsFilename(gvr, "", namespace);
    assert Typed(d, r) && PlainResource(r);
    FilenameInjective(k, r.resourceType.resource, Key(GK(gvr.group, ""), namespace), gvr.resource);
  }

  lemma SelectedPath(rs: seq<ObjectResource>, k: Key, r: ObjectResource)
    requires TypeOf(rs, k.gk) == Some(r.resourceType)
    ensures PathOf(rs, k) == Filename(k, r.resourceType.resource)
  {
  }

  lemma PathOfSelected(d: Discovery, rs: seq<ObjectResource>, gvr: GVR, r: ObjectResource)
    requires Packable(d, rs) && PlainType(gvr) && r in rs && SameGroupResource(r.resourceType, gvr)
    ensures KeyOf(r.content) in KeysOf(rs)
    ensures PathOf(rs, KeyOf(r.content)) == ListLocation(gvr, r.content.namespace)
  {
    hide Filename, ListLocation, KeysOf, TypeOf;
    KeyKnown(rs, r);
    var w := KeyWitness(d, rs, KeyOf(r.content));
    assert Typed(d, r) && Typed(d, w) && PlainResource(r);
    ListLocationIsFilename(gvr, r.content.gvk.kind, r.content.namespace);
  }

  /** Every selected resource is in the list file of its type and namespace. */
  lemma ListFileOfSelected(
    d: Discovery, rs: seq<ObjectResource>, files: Files, ks: seq<Key>, gvr: GVR, r: ObjectResource)
    requires Packable(d, rs) && HoldsPacked(rs, files, ks) && Enumerates(ks, KeysOf(rs))
    requires PlainType(gvr) && r in rs && SameGroupResource(r.resourceType, gvr)
    ensures KeyOf(r.content) in KeysOf(rs)
    ensures ListLocation(gvr, r.content.namespace) in files
    ensures files[ListLocation(gvr, r.content.namespace)] == ListFile(ListFor(rs, KeyOf(r.content)))
  {
    hide PathOf, ListFor, HoldsPacked, ListLocation, KeysOf, Packable;
    PathOfSelected(d, rs, gvr, r);
    HoldsAt(rs, files, ks, KeyOf(r.content));
  }

  lemma KeyKnown(rs: seq<ObjectResource>, r: ObjectResource)
    requires r in rs
    ensures KeyOf(r.content) in KeysOf(rs)
  {
    InContents(rs, r);
  }

  lemma PlainSplit(segs: seq<string>)
    requires segs != [] && forall s :: s in segs ==> Paths.Plain(s)
    ensures Split(Paths.Join(segs), '/') == segs
  {
    Paths.JoinPlain(segs);
  }

  function IndividualParts(gvr: GVR, namespace: string, name: string): seq<string>
  {
    if gvr == CORE_NAMESPACES && namespace == name then ["namespaces", name, name + ".yaml"]
    else IndividualDirectory(gvr, namespace) + [name + ".yaml"]
  }

  lemma IndividualSegments(gvr: GVR, namespace: string, name: string)
    requires PlainType(gvr) && (namespace == "" || Paths.Plain(namespace)) && Paths.Plain(name)
    ensures Split(IndividualLocation(gvr, namespace, name), '/') == IndividualParts(gvr, namespace, name)
  {
    PlainYaml(name);
    assert Paths.Plain(GroupDirectory(gvr.group));
    PlainSplit(IndividualParts(gvr, namespace, name));
  }

  /** A packed path and the path of a single object differ in length or in their first segment. */
  lemma ShapesDiffer(k: Key, resource: string, gvr: GVR, namespace: string, name: string)
    ensures Segments(k, resource) != IndividualParts(gvr, namespace, name)
  {
    var a, b := Segments(k, resource), IndividualParts(gvr, namespace, name);
    assert |a| == (if k.namespace == "" then 3 else 4) && a[0] == Scope(k.namespace);
    assert |a| != |b| || a[0] != b[0];
  }

  /** There are no files for single objects. */
  lemma NoIndividualFile(
    d: Discovery, rs: seq<ObjectResource>, files: Files, ks: seq<Key>, gvr: GVR, namespace: string, name: string)
    requires Packable(d, rs) && HoldsPacked(rs, files, ks)
    requires PlainType(gvr) && (namespace == "" || Paths.Plain(namespace)) && Paths.Plain(name)
    ensures IndividualLocation(gvr, namespace, name) !in files
  {
    hide Split, IndividualLocation, HoldsPacked, Packable;
    var p := IndividualLocation(gvr, namespace, name);
    IndividualSegments(gvr, namespace, name);
    if p in files {
      var k, r := PathShapes(d, rs, files, ks, p);
      ShapesDiffer(k, r.resourceType.resource, gvr, namespace, name);
    }
  }

  lemma {:induction false} FindNamedFirst(items: seq<Object>, name: string, kind: string)
    ensures FindNamed(items, name, kind).None? <==> forall o :: o in items ==> o.name != name
    ensures FindNamed(items, name, kind).Some? ==>
              exists o :: o in items && o.name == name &&
                FindNamed(items, name, kind).value == o.(gvk := o.gvk.(kind := kind))
  {
    if items != [] {
      FindNamedFirst(items[1..], name, kind);
      assert items == [items[0]] + items[1..];
    }
  }

  lemma ListedKind(rs: seq<ObjectResource>, k: Key)
    requires k in KeysOf(rs)
    ensures TrimSuffix(ListFor(rs, k).gvk.kind, "List") == k.gk.kind
    ensures forall o :: o in ItemsOf(rs, k) ==>
            o.gvk.kind == k.gk.kind && o.namespace == k.namespace && o in Contents(rs)
  {
    ItemsNonEmpty(rs, k);
    var first := ItemsOf(rs, k)[0];
    assert first in ItemsOf(rs, k) && first.gvk.kind == k.gk.kind;
    var listKind := k.gk.kind + "List";
    assert listKind[|listKind| - 4..] == "List" && listKind[..|listKind| - 4] == k.gk.kind;
  }

  /** What the list of a key answers to a read by name: the item of that name, unchanged. */
  lemma FromPackedList(rs: seq<ObjectResource>, k: Key, name: string)
    requires k in KeysOf(rs)
    ensures FromList(ListFor(rs, k), name).None? <==> forall o :: o in ItemsOf(rs, k) ==> o.name != name
    ensures FromList(ListFor(rs, k), name).Some? ==>
              FromList(ListFor(rs, k), name).value in ItemsOf(rs, k) &&
                FromList(ListFor(rs, k), name).value.name == name
  {
    ListedKind(rs, k);
    FindNamedFirst(ItemsOf(rs, k), name, k.gk.kind);
  }

  lemma ResourceOfItem(
    d: Discovery, rs: seq<ObjectResource>, k: Key, w: ObjectResource, o: Object)
    returns (r: ObjectResource)
    requires Packable(d, rs) && k in KeysOf(rs) && o in ItemsOf(rs, k)
    requires w in rs && KeyOf(w.content) == k
    ensures r in rs && r.content == o && KeyOf(o) == k && r.resourceType == w.resourceType
  {
    ItemsNonEmpty(rs, k);
    var i :| 0 <= i < |rs| && rs[i].content == o;
    r := rs[i];
    assert Typed(d, r) && Typed(d, w);
    assert r.content.gvk == w.content.gvk;
  }

  /** A read by name finds the selected resource it asks for, with its content. */
  lemma GetFinds(
    d: Discovery, world: set<ObjectResource>, selected: seq<ObjectResource>, files: Files, ks: seq<Key>,
    id: ExactResourceID, r: ObjectResource)
    requires Holds(d, world, selected, files, ks) && id.resourceType.resource != "namespaces"
    requires ValidGet(id) && PlainType(id.resourceType)
    requires r in selected && AtId(r, id) && r.resourceType == id.resourceType
    ensures Get(files, id) == Got(r.content)
  {
    hide Filename, PathOf, HoldsPacked, ListLocation, IndividualLocation, ListFor;
    var gvr := id.resourceType;
    assert RequestNamespace(id) == id.namespace;
    NoIndividualFile(d, selected, files, ks, gvr, id.namespace, id.name);
    ListFileOfSelected(d, selected, files, ks, gvr, r);
    var k := KeyOf(r.content);
    FromPackedList(selected, k, id.name);
    ItemsNonEmpty(selected, k);
    InContents(selected, r);
    assert r.content in ItemsOf(selected, k);
    var o := FromList(ListFor(selected, k), id.name).value;
    var r' := ResourceOfItem(d, selected, k, r, o);
    assert SameIdentity(r, r');
    assert Typed(d, r);
  }

  /** A read by name finds nothing when nothing selected is asked for, and never finds a Namespace: those are listed
      in the cluster scope, and looked for in a namespace. */
  lemma GetFindsNothing(
    d: Discovery, world: set<ObjectResource>, selected: seq<ObjectResource>, files: Files, ks: seq<Key>,
    id: ExactResourceID)
    requires Holds(d, world, selected, files, ks)
    requires ValidGet(id) && PlainType(id.resourceType)
    requires (forall r :: r in selected ==> !AtId(r, id)) || id.resourceType.resource == "namespaces"
    ensures Get(files, id) == NotFound
  {
    hide Filename, PathOf, HoldsPacked, ListLocation, IndividualLocation, ListFor;
    var gvr, ns := id.resourceType, RequestNamespace(id);
    NoIndividualFile(d, selected, files, ks, gvr, ns, id.name);
    if ListLocation(gvr, ns) in files {
      var k, w := ListFilePresent(d, selected, files, ks, gvr, ns);
      FromPackedList(selected, k, id.name);
      if FromList(ListFor(selected, k), id.name).Some? {
        var o := FromList(ListFor(selected, k), id.name).value;
        var r' := ResourceOfItem(d, selected, k, w, o);
      }
    }
  }

  lemma ListingOfOne(r: ObjectResource)
    ensures ByNamespace([r], [r.content.namespace]) == [r]
  {
    assert [r.content.namespace][..0] == [];
    assert ByNamespace([r], []) == [];
    FilterEverything([r], InNamespace(r.content.namespace));
  }

  /** A read that matches no Namespace matches the same in what is kept. */
  lemma KeptMatches(selected: seq<ObjectResource>, m: ObjectResource -> bool)
    requires forall r :: r in selected && m(r) ==> NotANamespace()(r)
    ensures Filter(Kept(selected), m) == Filter(selected, m)
  {
    FilterTwice(selected, NotANamespace(), m, m);
  }

  lemma FoundIsReplayed(
    d: Discovery, d': Discovery, matches: LabelMatch, world: set<ObjectResource>, selected: seq<ObjectResource>,
    files: Files, ks: seq<Key>, id: ExactResourceID, r: ObjectResource)
    requires Holds(d, world, selected, files, ks) && id.resourceType.resource != "namespaces"
    requires PlainType(id.resourceType) && ValidGet(id)
    requires r in selected && AtId(r, id) && r.resourceType == id.resourceType && r.filename == ""
    ensures Replays(DirectoryClient(d', files, matches), matches, Kept(selected), GetQuery(id), [id.namespace])
  {
    hide ID, Get, Packable, HoldsPacked;
    var m := Matching(matches, GetQuery(id));
    GetFinds(d, world, selected, files, ks, id, r);
    forall x | x in selected && m(x) ensures x == r {
      assert x in world && r in world && SameIdentity(x, r);
    }
    forall i, j | 0 <= i < j < |selected| ensures selected[i] != selected[j] {
      assert ID(selected[i]) != ID(selected[j]);
    }
    FilterUnique(selected, m, r);
    KeptMatches(selected, m);
    FilterIn(selected, NotANamespace());
    ListingOfOne(r);
  }

  lemma MissingIsReplayed(
    d: Discovery, d': Discovery, matches: LabelMatch, world: set<ObjectResource>, selected: seq<ObjectResource>,
    files: Files, ks: seq<Key>, id: ExactResourceID)
    requires Holds(d, world, selected, files, ks)
    requires PlainType(id.resourceType) && ValidGet(id)
    requires (forall r :: r in selected ==> !AtId(r, id)) || id.resourceType.resource == "namespaces"
    ensures Replays(DirectoryClient(d', files, matches), matches, Kept(selected), GetQuery(id), [id.namespace])
  {
    hide ID, Get, PlainType, HoldsPacked, Packable;
    GetFindsNothing(d, world, selected, files, ks, id);
    FilterIn(selected, NotANamespace());
    forall r | r in Kept(selected) ensures !AtId(r, id) { assert r in selected && r in world; }
    FilterNothing(Kept(selected), Matching(matches, GetQuery(id)));
    ListingOfNothing([id.namespace]);
  }

  /** A read by name of a successful truthful run is replayed by the directory written from its selection. */
  lemma GetIsReplayed(
    d: Discovery, d': Discovery, c: Client, matches: LabelMatch, world: set<ObjectResource>,
    selected: seq<ObjectResource>, files: Files, ks: seq<Key>, id: ExactResourceID)
    requires Holds(d, world, selected, files, ks)
    requires TruthfulRead(c, matches, world, GetQuery(id)) && PlainType(id.resourceType)
    requires QueryErrors(c, GetQuery(id)) == []
    ensures Replays(DirectoryClient(d', files, matches), matches, Kept(selected), GetQuery(id), [id.namespace])
  {
    hide ID, Get, Packable, HoldsPacked, Replays, DirectoryClient, PlainType;
    if r :| r in selected && AtId(r, id) && id.resourceType.resource != "namespaces" {
      var r' := Wrap(id.resourceType, c.get(id).value);
      assert r in world && SameIdentity(r, r');
      FoundIsReplayed(d, d', matches, world, selected, files, ks, id, r);
    } else {
      MissingIsReplayed(d, d', matches, world, selected, files, ks, id);
    }
  }

  lemma {:induction false} ListingOfNothing(namespaces: seq<string>)
    ensures ByNamespace([], namespaces) == []
  {
    if namespaces != [] { ListingOfNothing(namespaces[..|namespaces| - 1]); }
  }

  /** Taking the contents commutes with selecting. */
  lemma {:induction false} ContentsOfFilter(xs: seq<ObjectResource>, m: ObjectResource -> bool, p: Object -> bool)
    requires forall x :: x in xs ==> m(x) == p(x.content)
    ensures Contents(Filter(xs, m)) == Filter(Contents(xs), p)
  {
    hide Contents;
    NoContents();
    if xs != [] {
      var init, last := xs[..|xs| - 1], xs[|xs| - 1];
      assert last in xs && xs == init + [last];
      ContentsOfFilter(init, m, p);
      ContentsAppend(init, [last]);
      OneContent(last);
      FilterAppend(Contents(init), [last.content], p);
      ContentsAppend(Filter(init, m), if m(last) then [last] else []);
      assert Filter([last.content], p) == if p(last.content) then [last.content] else [] by {
        assert [last.content][..0] == [];
      }
    }
  }

  lemma OneContent(r: ObjectResource)
    ensures Contents([r]) == [r.content]
  {
  }

  function OfType(gvr: GVR): ObjectResource -> bool
  {
    (r: ObjectResource) => SameGroupResource(r.resourceType, gvr)
  }

  function OfTypeIn(gvr: GVR, namespace: string): ObjectResource -> bool
  {
    Both(OfType(gvr), InNamespace(namespace))
  }

  /** The list file visited for a namespace holds exactly the selected resources of the type there, in order. */
  lemma ListedThere(
    d: Discovery, world: set<ObjectResource>, selected: seq<ObjectResource>, files: Files, ks: seq<Key>,
    gvr: GVR, namespace: string)
    requires Holds(d, world, selected, files, ks)
    requires PlainType(gvr) && (namespace == "" || Paths.Plain(namespace))
    ensures !ListedAt(files, gvr, namespace).Failed?
    ensures ListedAt(files, gvr, namespace).NotFound? ==> Filter(selected, OfTypeIn(gvr, namespace)) == []
    ensures ListedAt(files, gvr, namespace).Got? ==>
              && ListedAt(files, gvr, namespace).value.items == Contents(Filter(selected, OfTypeIn(gvr, namespace)))
              && exists r :: r in selected && OfTypeIn(gvr, namespace)(r)
                             && ListedAt(files, gvr, namespace).value.gvk == GuessListKind(r.content)
  {
    hide Filename, PathOf, HoldsPacked, ListLocation;
    if ListLocation(gvr, namespace) in files {
      var k, w := ListFilePresent(d, selected, files, ks, gvr, namespace);
      KeyMeansType(d, world, selected, gvr, namespace, k, w);
      ItemsNonEmpty(selected, k);
      var first := ItemsOf(selected, k)[0];
      assert first in ItemsOf(selected, k);
      var r := ResourceOfItem(d, selected, k, w, first);
    } else {
      forall r | r in selected ensures !OfTypeIn(gvr, namespace)(r) {
        if OfTypeIn(gvr, namespace)(r) { ListFileOfSelected(d, selected, files, ks, gvr, r); }
      }
      FilterNothing(selected, OfTypeIn(gvr, namespace));
    }
  }

  lemma KeyMeansType(
    d: Discovery, world: set<ObjectResource>, selected: seq<ObjectResource>, gvr: GVR, namespace: string, k: Key,
    w: ObjectResource)
    requires Coherent(d, world) && (forall r :: r in selected ==> r in world)
    requires w in selected && KeyOf(w.content) == k && k.namespace == namespace &&
      SameGroupResource(w.resourceType, gvr)
    requires Packable(d, selected)
    ensures ItemsOf(selected, k) == Contents(Filter(selected, OfTypeIn(gvr, namespace)))
  {
    forall r | r in selected ensures OfTypeIn(gvr, namespace)(r) == InKey(k)(r.content) {
      assert Typed(d, r) && Typed(d, w);
      if r.content.GroupKind() == w.content.GroupKind() {
        assert r.content.gvk == w.content.gvk;
      }
    }
    ContentsOfFilter(selected, OfTypeIn(gvr, namespace), InKey(k));
  }

  predicate PlainNamespaces(namespaces: seq<string>)
  {
    forall i :: 0 <= i < |namespaces| ==> namespaces[i] == "" || Paths.Plain(namespaces[i])
  }

  /** The kind is the list kind of some selected resource of the type in one of the namespaces. */
  ghost predicate KindFrom(selected: seq<ObjectResource>, gvr: GVR, namespaces: seq<string>, gvk: GVK)
  {
    exists r :: r in selected && OfType(gvr)(r) && r.content.namespace in namespaces && gvk == GuessListKind(r.content)
  }

  lemma KindFromListed(selected: seq<ObjectResource>, gvr: GVR, init: seq<string>, last: string, gvk: GVK)
    requires
      || KindFrom(selected, gvr, init, gvk)
      || exists r :: r in selected && OfTypeIn(gvr, last)(r) && gvk == GuessListKind(r.content)
    ensures KindFrom(selected, gvr, init + [last], gvk)
  {
    hide GuessListKind, OfType, OfTypeIn;
    if KindFrom(selected, gvr, init, gvk) {
      var r :| r in selected && OfType(gvr)(r) && r.content.namespace in init && gvk == GuessListKind(r.content);
      assert r.content.namespace in init + [last];
    } else {
      var r :| r in selected && OfTypeIn(gvr, last)(r) && gvk == GuessListKind(r.content);
      InBoth(gvr, last, r);
      assert r.content.namespace in init + [last];
    }
  }

  /** The list files visited, one after the other, hold the selected resources of the type, namespace by namespace. */
  lemma {:induction false} ListsRead(
    d: Discovery, world: set<ObjectResource>, selected: seq<ObjectResource>, files: Files, ks: seq<Key>,
    gvr: GVR, namespaces: seq<string>)
    requires Holds(d, world, selected, files, ks) && PlainType(gvr) && PlainNamespaces(namespaces)
    ensures ReadLists(files, gvr, namespaces).Some?
    ensures
      var ls := ReadLists(files, gvr, namespaces).value;
      && ItemsOfLists(ls) == Contents(ByNamespace(Filter(selected, OfType(gvr)), namespaces))
      && (ls != [] ==> KindFrom(selected, gvr, namespaces, ls[0].gvk))
  {
    hide Holds, PlainType, ListedAt, OfTypeIn, OfType, Contents, GuessListKind, Filter, KindFrom;
    NoContents();
    if namespaces != [] {
      var init, last := namespaces[..|namespaces| - 1], namespaces[|namespaces| - 1];
      assert namespaces == init + [last];
      ListsRead(d, world, selected, files, ks, gvr, init);
      ListedThere(d, world, selected, files, ks, gvr, last);
      ReadListsStep(files, gvr, init, last);
      ListingStep(selected, gvr, init, last);
      if ReadLists(files, gvr, namespaces).value != [] {
        KindFromListed(selected, gvr, init, last, ReadLists(files, gvr, namespaces).value[0].gvk);
      }
    }
  }

  lemma InBoth(gvr: GVR, namespace: string, r: ObjectResource)
    ensures OfTypeIn(gvr, namespace)(r) <==> OfType(gvr)(r) && r.content.namespace == namespace
  {
  }

  lemma NoContents()
    ensures Contents([]) == []
  {
  }

  lemma ReadListsStep(files: Files, gvr: GVR, init: seq<string>, last: string)
    requires ReadLists(files, gvr, init).Some? && !ListedAt(files, gvr, last).Failed?
    ensures
      var before, here := ReadLists(files, gvr, init).value, ListedAt(files, gvr, last);
      var ls := before + if here.Got? then [here.value] else [];
      && ReadLists(files, gvr, init + [last]) == Some(ls)
      && ItemsOfLists(ls) == ItemsOfLists(before) + if here.Got? then here.value.items else []
  {
    assert (init + [last])[..|init|] == init;
    var before, here := ReadLists(files, gvr, init).value, ListedAt(files, gvr, last);
    if here.Got? {
      var ls := before + [here.value];
      assert ls[..|ls| - 1] == before;
    } else {
      assert before + [] == before;
    }
  }

  lemma ListingStep(selected: seq<ObjectResource>, gvr: GVR, init: seq<string>, last: string)
    ensures
      var ofType := Filter(selected, OfType(gvr));
      Contents(ByNamespace(ofType, init + [last])) ==
      Contents(ByNamespace(ofType, init)) + Contents(Filter(selected, OfTypeIn(gvr, last)))
  {
    var ofType := Filter(selected, OfType(gvr));
    assert (init + [last])[..|init|] == init;
    FilterTwice(selected, OfType(gvr), InNamespace(last), OfTypeIn(gvr, last));
    ContentsAppend(ByNamespace(ofType, init), Filter(ofType, InNamespace(last)));
  }

  /** There is no directory of single objects to visit. */
  lemma NoIndividualDirectory(
    d: Discovery, rs: seq<ObjectResource>, files: Files, ks: seq<Key>, gvr: GVR, namespace: string)
    requires Packable(d, rs) && HoldsPacked(rs, files, ks)
    ensures Children(files, IndividualDirectory(gvr, namespace)) == {}
  {
    hide Split, HoldsPacked, Packable;
    var dir := IndividualDirectory(gvr, namespace);
    forall p | p in files ensures !(|Split(p, '/')| > |dir| && Split(p, '/')[..|dir|] == dir) {
      var k, r := PathShapes(d, rs, files, ks, p);
      DirectoryTooDeep(k, r.resourceType.resource, gvr, namespace);
    }
  }

  lemma DirectoryTooDeep(k: Key, resource: string, gvr: GVR, namespace: string)
    ensures
      var segs, dir := Segments(k, resource), IndividualDirectory(gvr, namespace);
      !(|segs| > |dir| && segs[..|dir|] == dir)
  {
    var segs, dir := Segments(k, resource), IndividualDirectory(gvr, namespace);
    assert |segs| == (if k.namespace == "" then 3 else 4) && segs[0] == Scope(k.namespace);
    assert |dir| == (if namespace == "" then 3 else 4) && dir[0] == Scope(namespace);
    if |segs| > |dir| {
      assert segs[..|dir|][0] != dir[0];
    }
  }

  lemma NothingSorted(names: set<string>)
    requires names == {}
    ensures SortedList(names) == []
  {
  }

  lemma {:induction false} NoIndividualsRead(
    d: Discovery, rs: seq<ObjectResource>, files: Files, ks: seq<Key>, gvr: GVR, namespaces: seq<string>)
    requires Packable(d, rs) && HoldsPacked(rs, files, ks)
    ensures ReadAllIndividuals(files, gvr, namespaces) == Some([])
  {
    hide HoldsPacked, Packable, Children;
    if namespaces != [] {
      var init, last := namespaces[..|namespaces| - 1], namespaces[|namespaces| - 1];
      NoIndividualsRead(d, rs, files, ks, gvr, init);
      NoIndividualDirectory(d, rs, files, ks, gvr, last);
      var dir := IndividualDirectory(gvr, last);
      assert SortedList(Children(files, dir)) == [] by { NothingSorted(Children(files, dir)); }
      assert ReadIndividuals(files, dir, []) == Some([]);
      var none: seq<Object> := [];
      assert none + none == none;
    }
  }

  /** The namespace directories are those of the selected namespaced resources. */
  lemma NamespaceDirectories(d: Discovery, rs: seq<ObjectResource>, files: Files, ks: seq<Key>)
    requires Packable(d, rs) && HoldsPacked(rs, files, ks) && Enumerates(ks, KeysOf(rs))
    ensures forall n :: n in Children(files, ["namespaces"]) ==> n != "" && Paths.Plain(n)
    ensures forall r :: r in rs && r.content.namespace != "" ==> r.content.namespace in Children(files, ["namespaces"])
  {
    hide Split, HoldsPacked, PathOf, ListFor;
    forall n | n in Children(files, ["namespaces"]) ensures n != "" && Paths.Plain(n) {
      var p :| p in files && |Split(p, '/')| > 1 && Split(p, '/')[..1] == ["namespaces"] && n == Split(p, '/')[1];
      var k, r := PathShapes(d, rs, files, ks, p);
      assert Split(p, '/')[..1][0] == Scope(k.namespace);
      assert PlainResource(r);
    }
    forall r | r in rs && r.content.namespace != "" ensures r.content.namespace in Children(files, ["namespaces"]) {
      var k := KeyOf(r.content);
      KeyKnown(rs, r);
      HoldsAt(rs, files, ks, k);
      var w := KeyWitness(d, rs, k);
      assert PlainResource(w);
      FilenameSegments(k, w.resourceType.resource);
      var segs := Segments(k, w.resourceType.resource);
      assert segs[..1] == ["namespaces"] && segs[1] == k.namespace && |segs| == 4;
      PathOfKey(rs, k, w);
      assert Split(PathOf(rs, k), '/') == segs;
    }
  }

  lemma PathOfKey(rs: seq<ObjectResource>, k: Key, w: ObjectResource)
    requires TypeOf(rs, k.gk) == Some(w.resourceType)
    ensures PathOf(rs, k) == Filename(k, w.resourceType.resource)
  {
  }

  lemma ListedNamespacesAscend(d: Discovery, rs: seq<ObjectResource>, files: Files, ks: seq<Key>, namespace: string)
    requires Packable(d, rs) && HoldsPacked(rs, files, ks) && Enumerates(ks, KeysOf(rs))
    requires ValidSegment(namespace)
    ensures
      var listed := ListedNamespaces(files, namespace);
      && StrictlyAscending(listed) && PlainNamespaces(listed)
      && forall r :: r in rs && (namespace == "" || r.content.namespace == namespace) ==> r.content.namespace in listed
    ensures forall n :: n in ListedNamespaces(files, namespace) && namespace != "" ==> n == namespace
  {
    hide HoldsPacked, Packable, Children;
    var listed := ListedNamespaces(files, namespace);
    if namespace == "" {
      NamespaceDirectories(d, rs, files, ks);
      var sorted := SortedList(Children(files, ["namespaces"]));
      forall i | 0 <= i < |sorted| ensures Compare("", sorted[i]) < 0 && Paths.Plain(sorted[i]) {
        assert sorted[i] in sorted;
      }
    }
  }

  /** Wrapping the contents of resources of one type, read without a filename, gives the resources back. */
  lemma {:induction false} WrapContents(xs: seq<ObjectResource>, gvr: GVR)
    requires forall r :: r in xs ==> r.filename == "" && r.resourceType == gvr
    ensures WrapAll(gvr, Contents(xs)) == xs
  {
    forall i | 0 <= i < |xs| ensures Wrap(gvr, Contents(xs)[i]) == xs[i] { assert xs[i] in xs; }
  }

  function Labelled(matches: LabelMatch, selector: string): ObjectResource -> bool
  {
    (r: ObjectResource) => matches(selector, r.content)
  }

  /** Listing the type namespace by namespace and then selecting by label is listing the matching resources. */
  lemma {:induction false} ListingMatches(
    selected: seq<ObjectResource>, matches: LabelMatch, sel: LabelSelected, namespaces: seq<string>)
    requires sel.resourceType != CORE_NAMESPACES
    requires sel.namespace != "" ==> forall n :: n in namespaces ==> n == sel.namespace
    ensures
      var listing := ByNamespace(Filter(selected, OfType(sel.resourceType)), namespaces);
      Filter(listing, Labelled(matches, sel.selector)) ==
      ByNamespace(Filter(selected, Matching(matches, ListQuery(sel))), namespaces)
  {
    var ofType, labelled := OfType(sel.resourceType), Labelled(matches, sel.selector);
    var m := Matching(matches, ListQuery(sel));
    FilterByNamespace(Filter(selected, ofType), namespaces, labelled);
    FilterTwice(selected, ofType, labelled, Both(ofType, labelled));
    forall n | n in namespaces
      ensures Filter(Filter(selected, Both(ofType, labelled)), InNamespace(n)) ==
              Filter(Filter(selected, m), InNamespace(n))
    {
      var all := Both(Both(ofType, labelled), InNamespace(n));
      FilterTwice(selected, Both(ofType, labelled), InNamespace(n), all);
      assert sel.namespace == "" || n == sel.namespace;
      assert forall r :: m(r) <==> InScope(r, sel) && labelled(r);
      FilterTwice(selected, m, InNamespace(n), all);
    }
    ByNamespaceAgree(Filter(selected, Both(ofType, labelled)), Filter(selected, m), namespaces);
  }

  /** What the directory answers to a listing that its discovery serves. */
  lemma ListAnswers(
    d: Discovery, d': Discovery, world: set<ObjectResource>, selected: seq<ObjectResource>, files: Files, ks: seq<Key>,
    matches: LabelMatch, sel: LabelSelected)
    requires Holds(d, world, selected, files, ks)
    requires ValidSegment(sel.namespace) && PlainType(sel.resourceType) && sel.resourceType != CORE_NAMESPACES
    requires ServesListing(d', selected, sel)
    ensures
      var namespaces := ListedNamespaces(files, sel.namespace);
      var listing := ByNamespace(Filter(selected, OfType(sel.resourceType)), namespaces);
      List(d', files, matches, sel) == Got(Filter(Contents(listing), MatchesLabels(matches, sel.selector)))
  {
    hide HoldsPacked, Packable, Contents;
    var gvr := sel.resourceType;
    var namespaces := ListedNamespaces(files, sel.namespace);
    ListedNamespacesAscend(d, selected, files, ks, sel.namespace);
    ListsRead(d, world, selected, files, ks, gvr, namespaces);
    var ls := ReadLists(files, gvr, namespaces).value;
    if ls != [] {
      var r :| r in selected && OfType(gvr)(r) && r.content.namespace in namespaces
               && ls[0].gvk == GuessListKind(r.content);
      assert InScope(r, sel);
    } else {
      NoIndividualsRead(d, selected, files, ks, gvr, namespaces);
    }
  }

  /** A listing that the discovery does not serve fails. */
  lemma ListFails(
    d: Discovery, d': Discovery, world: set<ObjectResource>, selected: seq<ObjectResource>, files: Files, ks: seq<Key>,
    matches: LabelMatch, sel: LabelSelected)
    requires Holds(d, world, selected, files, ks) && PlainType(sel.resourceType)
    requires forall r :: r in selected && InScope(r, sel) ==> r.resourceType == sel.resourceType
    requires !ServesListing(d', selected, sel)
    ensures List(d', files, matches, sel) == Failed
  {
    hide HoldsPacked, Packable, Contents;
    var gvr := sel.resourceType;
    var namespaces := ListedNamespaces(files, sel.namespace);
    if gvr in d'.kinds && ValidSegment(sel.namespace) {
      var r :| r in selected && InScope(r, sel) && d'.kinds[gvr] != r.content.gvk;
      ListedNamespacesAscend(d, selected, files, ks, sel.namespace);
      ListsRead(d, world, selected, files, ks, gvr, namespaces);
      var ls := ReadLists(files, gvr, namespaces).value;
      ListedSomething(selected, gvr, namespaces, r, ls);
      var first :| first in selected && OfType(gvr)(first) && first.content.namespace in namespaces
                   && ls[0].gvk == GuessListKind(first.content);
      assert InScope(first, sel);
      SameTypeSameKind(d, world, first, r);
      ListKindsDiffer(d'.kinds[gvr], r.content);
    }
  }

  lemma ListedSomething(
    selected: seq<ObjectResource>, gvr: GVR, namespaces: seq<string>, r: ObjectResource, ls: seq<ListObject>)
    requires r in selected && OfType(gvr)(r) && r.content.namespace in namespaces
    requires ItemsOfLists(ls) == Contents(ByNamespace(Filter(selected, OfType(gvr)), namespaces))
    ensures ls != []
  {
    FilterIn(selected, OfType(gvr));
    ByNamespaceIn(Filter(selected, OfType(gvr)), namespaces);
    assert r in ByNamespace(Filter(selected, OfType(gvr)), namespaces);
  }

  lemma SameTypeSameKind(d: Discovery, world: set<ObjectResource>, a: ObjectResource, b: ObjectResource)
    requires Coherent(d, world) && a in world && b in world && a.resourceType == b.resourceType
    ensures a.content.gvk == b.content.gvk
  {
    assert Typed(d, a) && Typed(d, b);
  }

  lemma ListKindsDiffer(kind: GVK, o: Object)
    requires kind != o.gvk
    ensures GuessListKind(o) != ListKindOf(kind)
  {
    if kind.kind + "List" == o.gvk.kind + "List" {
      assert |kind.kind| == |o.gvk.kind|;
      assert kind.kind == (kind.kind + "List")[..|kind.kind|] == o.gvk.kind;
    }
  }

  lemma ListIsReplayed(
    d: Discovery, d': Discovery, c: Client, matches: LabelMatch, world: set<ObjectResource>,
    selected: seq<ObjectResource>, files: Files, ks: seq<Key>, sel: LabelSelected)
    requires Holds(d, world, selected, files, ks) && ServesListing(d', selected, sel)
    requires TruthfulRead(c, matches, world, ListQuery(sel))
    requires PlainType(sel.resourceType) && sel.resourceType != CORE_NAMESPACES
    requires QueryErrors(c, ListQuery(sel)) == []
    ensures Replays(
              DirectoryClient(d', files, matches), matches, Kept(selected), ListQuery(sel),
              ListedNamespaces(files, sel.namespace))
  {
    hide HoldsPacked, Packable, List, ID, ListedNamespaces;
    var q, c', gvr := ListQuery(sel), DirectoryClient(d', files, matches), sel.resourceType;
    var namespaces := ListedNamespaces(files, sel.namespace);
    ListedNamespacesAscend(d, selected, files, ks, sel.namespace);
    ListAnswers(d, d', world, selected, files, ks, matches, sel);
    var ofType := Filter(selected, OfType(gvr));
    var listing := ByNamespace(ofType, namespaces);
    var kept := Filter(listing, Labelled(matches, sel.selector));
    ContentsOfFilter(listing, Labelled(matches, sel.selector), MatchesLabels(matches, sel.selector));
    ListingMatches(selected, matches, sel, namespaces);
    ByNamespaceIn(ofType, namespaces);
    FilterIn(selected, OfType(gvr));
    FilterIn(listing, Labelled(matches, sel.selector));
    forall r | r in kept ensures r.filename == "" && r.resourceType == gvr {
      assert InScope(r, sel);
    }
    WrapContents(kept, gvr);
    KeptMatches(selected, Matching(matches, q));
    FilterIn(selected, NotANamespace());
  }

  /** A listing of namespaces needs no discovery and finds nothing. */
  lemma NamespaceListIsReplayed(
    d: Discovery, d': Discovery, c: Client, matches: LabelMatch, world: set<ObjectResource>,
    selected: seq<ObjectResource>, files: Files, ks: seq<Key>, sel: LabelSelected)
    requires Holds(d, world, selected, files, ks)
    requires TruthfulRead(c, matches, world, ListQuery(sel)) && sel.resourceType == CORE_NAMESPACES
    requires QueryErrors(c, ListQuery(sel)) == []
    ensures Replays(DirectoryClient(d', files, matches), matches, Kept(selected), ListQuery(sel), [""])
  {
    hide HoldsPacked, Packable;
    NoNamespaceFiles(d, selected, files, ks, SortedList(Children(files, ["namespaces"])));
    FilterIn(selected, NotANamespace());
    forall r | r in Kept(selected) ensures !InScope(r, sel) { assert r in selected && r in world; }
    FilterNothing(Kept(selected), Matching(matches, ListQuery(sel)));
    ListingOfNothing([""]);
  }

  lemma NoNamespaceFile(d: Discovery, rs: seq<ObjectResource>, files: Files, ks: seq<Key>, name: string)
    requires Packable(d, rs) && HoldsPacked(rs, files, ks) && Paths.Plain(name)
    ensures Paths.Join(["namespaces", name, name + ".yaml"]) !in files
  {
    hide Packable, HoldsPacked, Paths.Join;
    NoIndividualFile(d, rs, files, ks, CORE_NAMESPACES, name, name);
  }

  lemma {:induction false} NamespacesRead(
    d: Discovery, rs: seq<ObjectResource>, files: Files, ks: seq<Key>, names: seq<string>)
    requires Packable(d, rs) && HoldsPacked(rs, files, ks)
    requires forall i :: 0 <= i < |names| ==> Paths.Plain(names[i])
    ensures ReadNamespaces(files, names) == Some([])
  {
    hide Packable, HoldsPacked;
    if names != [] {
      NamespacesRead(d, rs, files, ks, names[..|names| - 1]);
      NoNamespaceFile(d, rs, files, ks, names[|names| - 1]);
    }
  }

  lemma NoNamespaceFiles(d: Discovery, rs: seq<ObjectResource>, files: Files, ks: seq<Key>, names: seq<string>)
    requires Packable(d, rs) && HoldsPacked(rs, files, ks) && Enumerates(ks, KeysOf(rs))
    requires forall n :: n in names ==> n in Children(files, ["namespaces"])
    ensures ReadNamespaces(files, names) == Some([])
  {
    hide Packable, HoldsPacked;
    NamespaceDirectories(d, rs, files, ks);
    forall i | 0 <= i < |names| ensures Paths.Plain(names[i]) { assert names[i] in names; }
    NamespacesRead(d, rs, files, ks, names);
  }
}
