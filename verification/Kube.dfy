/** The Kubernetes vocabulary: type identifiers, objects and the resources that wrap them. */
module Kube {
  import opened GoStrings

  datatype Option<+T> = None | Some(value: T)

  datatype GVK = GVK(group: string, version: string, kind: string)

  datatype GK = GK(group: string, kind: string)

  datatype GVR = GVR(group: string, version: string, resource: string)

  /** An unstructured object. `body` stands for everything but the type and the two metadata fields the program
      reads, so equality of objects is deep equality. */
  datatype Object = Object(gvk: GVK, namespace: string, name: string, body: string) {
    function GroupKind(): GK { GK(gvk.group, gvk.kind) }
  }

  /** `Resource` of resource.go; the content is one object or, in a packed file, a list. */
  datatype Resource<+C> = Resource(filename: string, resourceType: GVR, content: C)

  type ObjectResource = Resource<Object>

  const CLUSTER_SCOPED := "_cluster_scoped_resource_"

  function NamespaceOrPlaceholder(namespace: string): string
  {
    if namespace == "" then CLUSTER_SCOPED else namespace
  }

  function Slash(head: string, tail: string): string
  {
    head + ['/'] + tail
  }

  /** `Resource.ID`: group/resource/namespace/name. */
  function ID(r: ObjectResource): string
  {
    Slash(r.resourceType.group,
          Slash(r.resourceType.resource, Slash(NamespaceOrPlaceholder(r.content.namespace), r.content.name)))
  }

  predicate SameIdentity(a: ObjectResource, b: ObjectResource)
  {
    && a.resourceType.group == b.resourceType.group
    && a.resourceType.resource == b.resourceType.resource
    && a.content.namespace == b.content.namespace
    && a.content.name == b.content.name
  }

  /** The components before the name hold no slash and the namespace is not the placeholder; names are free. */
  predicate Identifiable(r: ObjectResource)
  {
    && '/' !in r.resourceType.group
    && '/' !in r.resourceType.resource
    && '/' !in r.content.namespace
    && r.content.namespace != CLUSTER_SCOPED
  }

  lemma SplitID(r: ObjectResource)
    requires Identifiable(r)
    ensures Split(ID(r), '/') ==
            [r.resourceType.group, r.resourceType.resource, NamespaceOrPlaceholder(r.content.namespace)] +
            Split(r.content.name, '/')
  {
    var ns := NamespaceOrPlaceholder(r.content.namespace);
    var t2 := Slash(ns, r.content.name);
    var t1 := Slash(r.resourceType.resource, t2);
    SplitHead(r.resourceType.group, t1, '/');
    SplitHead(r.resourceType.resource, t2, '/');
    SplitHead(ns, r.content.name, '/');
  }

  /** Two identifiable resources get one ID exactly when they are the same group, resource, namespace and name. */
  lemma IDInjective(a: ObjectResource, b: ObjectResource)
    requires Identifiable(a) && Identifiable(b)
    ensures ID(a) == ID(b) <==> SameIdentity(a, b)
  {
    if ID(a) == ID(b) {
      SplitID(a);
      SplitID(b);
      var sa, sb := Split(ID(a), '/'), Split(ID(b), '/');
      assert sa[0] == sb[0] && sa[1] == sb[1] && sa[2] == sb[2];
      var n := |ID(a)| - |a.content.name|;
      assert ID(a)[n..] == a.content.name && ID(b)[n..] == b.content.name;
    }
  }

  lemma SlashAssociates(a: string, b: string, c: string)
    ensures Slash(a, Slash(b, c)) == Slash(Slash(a, b), c)
  {
  }

  /** Both restrictions are needed. A namespace spelled like the placeholder collides with the cluster scope, and a
      slash in the resource collides with one moved into the namespace and the name. */
  lemma IDConfuses(group: string, r: string, x: string, y: string, n: string, k: GVK)
    requires x != "" && y != ""
    ensures
      var cluster := Resource("", GVR(group, "v1", r), Object(k, "", n, ""));
      var placed := Resource("", GVR(group, "v1", r), Object(k, CLUSTER_SCOPED, n, ""));
      ID(cluster) == ID(placed) && !SameIdentity(cluster, placed)
    ensures
      var inName := Resource("", GVR(group, "v1", r), Object(k, x, Slash(y, n), ""));
      var inType := Resource("", GVR(group, "v1", Slash(r, x)), Object(k, y, n, ""));
      ID(inName) == ID(inType) && !SameIdentity(inName, inType)
  {
    SlashAssociates(r, x, Slash(y, n));
    assert |Slash(r, x)| > |r|;
  }

  /** What discovery offers: the resources of a kind (client discovery) and the kind of a resource. */
  datatype Discovery = Discovery(resources: map<GVK, seq<GVR>>, kinds: map<GVR, GVK>)

  datatype Finding<+T> = Ok(value: T) | NoneFound | Ambiguous

  /** `findGVR`: the resource of a kind, unless discovery lists none or several. */
  function FindGVR(d: Discovery, gvk: GVK): Finding<GVR>
  {
    var gvrs := if gvk in d.resources then d.resources[gvk] else [];
    if |gvrs| == 1 then Ok(gvrs[0]) else if |gvrs| == 0 then NoneFound else Ambiguous
  }

  /** The resource's type and its object's kind are each other's, in both directions of discovery. */
  predicate Typed(d: Discovery, r: ObjectResource)
  {
    && FindGVR(d, r.content.gvk) == Ok(r.resourceType)
    && r.resourceType in d.kinds
    && d.kinds[r.resourceType] == r.content.gvk
    && r.resourceType.group == r.content.gvk.group
    && r.resourceType.version == r.content.gvk.version
  }
}
