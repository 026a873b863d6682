/** Objects in files of their own, as must-gathers hold them: where the client looks for them and what it makes of
    them. */
module IndividualFiles {
  import opened Seqs
  import opened GoStrings
  import opened Kube
  import opened Packing
  import opened MustGatherDir
  import opened Prune
  import opened MustGatherClient
  import Paths

  /** A request that is sent, for something whose path segments each name a directory entry. */
  predicate PlainRead(id: ExactResourceID)
  {
    && ValidGet(id) && Paths.Plain(id.name) && Paths.Plain(id.resourceType.resource)
    && (id.namespace == "" || Paths.Plain(id.namespace))
    && (id.resourceType.group == "" || Paths.Plain(id.resourceType.group))
  }

  /** The file of one object. */
  function ObjectPath(id: ExactResourceID): string
  {
    var file :=
      (if id.resourceType.group == "" then "core" else id.resourceType.group) + "/" +
      (id.resourceType.resource + "/" + (id.name + ".yaml"));
    if id.namespace == "" then "cluster-scoped-resources" + "/" + file
    else "namespaces" + "/" + (id.namespace + "/" + file)
  }

  lemma ObjectSegments(id: ExactResourceID)
    requires PlainRead(id)
    ensures Paths.Join(IndividualDirectory(id.resourceType, id.namespace) + [id.name + ".yaml"]) == ObjectPath(id)
  {
    hide JoinWith, Paths.Join;
    var group, file := GroupDirectory(id.resourceType.group), id.name + ".yaml";
    var segs := IndividualDirectory(id.resourceType, id.namespace) + [file];
    var last := [group] + ([id.resourceType.resource] + [file]);
    assert |file| >= 5 && Paths.Plain(file) && Paths.Plain("namespaces") && Paths.Plain("cluster-scoped-resources");
    assert Paths.Plain(group);
    JoinOne(file);
    JoinBehind(id.resourceType.resource, [file]);
    JoinBehind(group, [id.resourceType.resource] + [file]);
    if id.namespace == "" {
      JoinBehind("cluster-scoped-resources", last);
      assert segs == ["cluster-scoped-resources"] + last;
    } else {
      JoinBehind(id.namespace, last);
      JoinBehind("namespaces", [id.namespace] + last);
      assert segs == ["namespaces"] + ([id.namespace] + last);
    }
    Paths.JoinPlain(segs);
  }

  lemma ListSegments(id: ExactResourceID)
    requires PlainRead(id)
    ensures ListLocation(id.resourceType, id.namespace) ==
            SpelledPath(id.namespace, id.resourceType.group, id.resourceType.resource)
  {
    hide SpelledPath, Paths.Join;
    var k := Key(GK(id.resourceType.group, ""), id.namespace);
    var segs := Segments(k, id.resourceType.resource);
    FilenameSegments(k, id.resourceType.resource);
    Paths.JoinPlain(segs);
    assert ScopeSegments(id.namespace) + [GroupDirectory(id.resourceType.group), id.resourceType.resource + ".yaml"] ==
           segs;
  }

  /** A file of its own is what a read by name gives, whatever list files there are: its object, if it has the group and
      the version asked for, and else a failure. Without that file and without a list file nothing is found. */
  lemma GetOwnFile(files: Files, id: ExactResourceID)
    requires PlainRead(id) && id.resourceType.resource != "namespaces"
    ensures ObjectPath(id) in files ==>
              Get(files, id) ==
              match files[ObjectPath(id)]
              case ObjectFile(o) =>
                if o.gvk.group == id.resourceType.group && o.gvk.version == id.resourceType.version then Got(o)
                else Failed
              case _ => Failed
    ensures ObjectPath(id) !in files
            && SpelledPath(id.namespace, id.resourceType.group, id.resourceType.resource) !in files ==>
              Get(files, id) == NotFound
  {
    hide ObjectPath, SpelledPath, ListLocation, IndividualDirectory, Paths.Join;
    ObjectSegments(id);
    ListSegments(id);
  }

  /** A core Namespace is read from the directory of its own name. */
  lemma GetNamespaceFile(files: Files, name: string)
    requires Paths.Plain(name) && ValidSegment(name)
    requires "namespaces" + "/" + (name + "/" + (name + ".yaml")) in files
    ensures Get(files, ExactResourceID(GVR("", "v1", "namespaces"), "", name)) ==
            match files["namespaces" + "/" + (name + "/" + (name + ".yaml"))]
            case ObjectFile(o) => if o.gvk.group == "" && o.gvk.version == "v1" then Got(o) else Failed
            case _ => Failed
  {
    hide JoinWith, Paths.Join;
    var file := name + ".yaml";
    var segs := ["namespaces", name, file];
    assert |file| >= 5 && Paths.Plain(file) && Paths.Plain("namespaces");
    JoinOne(file);
    JoinBehind(name, [file]);
    JoinBehind("namespaces", [name] + [file]);
    assert segs == ["namespaces"] + ([name] + [file]);
    Paths.JoinPlain(segs);
  }

  /** The objects of the files, in order. */
  ghost predicate HoldsInOrder(files: Files, dir: seq<string>, names: seq<string>, os: seq<Object>)
  {
    |os| == |names| && forall i :: 0 <= i < |names| ==>
      Paths.Join(dir + [names[i]]) in files && files[Paths.Join(dir + [names[i]])] == ObjectFile(os[i])
  }

  lemma {:induction false} IndividualsRead(files: Files, dir: seq<string>, names: seq<string>, os: seq<Object>)
    requires HoldsInOrder(files, dir, names, os)
    ensures ReadIndividuals(files, dir, names) == Some(os)
  {
    hide Paths.Join;
    if names != [] {
      var n := |names| - 1;
      IndividualsRead(files, dir, names[..n], os[..n]);
      assert os == os[..n] + [os[n]];
    }
  }

  /** Without a list file, a listing in one namespace gives the objects in files of their own that the selector
      matches, in the order of their names, if discovery gives the type the kind of the first. */
  lemma ListOwnFiles(d: Discovery, files: Files, matches: LabelMatch, sel: LabelSelected, os: seq<Object>)
    requires sel.namespace != "" && ValidSegment(sel.namespace)
    requires sel.resourceType.resource !in ["", "namespaces"] && sel.resourceType in d.kinds
    requires ListLocation(sel.resourceType, sel.namespace) !in files
    requires HoldsInOrder(
               files, IndividualDirectory(sel.resourceType, sel.namespace),
               SortedList(Children(files, IndividualDirectory(sel.resourceType, sel.namespace))), os)
    ensures List(d, files, matches, sel) ==
            if os != [] && os[0].gvk != d.kinds[sel.resourceType] then Failed
            else Got(Filter(os, MatchesLabels(matches, sel.selector)))
  {
    hide ListLocation, IndividualDirectory, Children, SortedList, HoldsInOrder, ReadIndividuals;
    var gvr, namespaces := sel.resourceType, [sel.namespace];
    var dir := IndividualDirectory(gvr, sel.namespace);
    IndividualsRead(files, dir, SortedList(Children(files, dir)), os);
    assert namespaces[..0] == [];
    assert ReadLists(files, gvr, namespaces[..0]) == Some([]);
    assert ReadLists(files, gvr, namespaces) == Some([]);
    assert ReadAllIndividuals(files, gvr, namespaces[..0]) == Some([]);
    assert ReadAllIndividuals(files, gvr, namespaces) == Some([] + os);
    assert [] + os == os;
  }

  /** The Namespaces of the names, in order. */
  ghost predicate HoldsNamespaces(files: Files, names: seq<string>, os: seq<Object>)
  {
    |os| == |names| && forall i :: 0 <= i < |names| ==>
      Paths.Join(["namespaces", names[i], names[i] + ".yaml"]) in files
      && files[Paths.Join(["namespaces", names[i], names[i] + ".yaml"])] == ObjectFile(os[i])
  }

  lemma {:induction false} NamespacesRead(files: Files, names: seq<string>, os: seq<Object>)
    requires HoldsNamespaces(files, names, os)
    ensures ReadNamespaces(files, names) == Some(os)
  {
    hide Paths.Join;
    if names != [] {
      var n := |names| - 1;
      NamespacesRead(files, names[..n], os[..n]);
      assert os == os[..n] + [os[n]];
    }
  }

  /** A listing of core Namespaces gives every one that has its file, in the order of their names, whatever the
      selector. */
  lemma ListNamespaceFiles(d: Discovery, files: Files, matches: LabelMatch, sel: LabelSelected, os: seq<Object>)
    requires sel.resourceType == GVR("", "v1", "namespaces") && ValidSegment(sel.namespace)
    requires HoldsNamespaces(files, SortedList(Children(files, ["namespaces"])), os)
    ensures List(d, files, matches, sel) == Got(os)
  {
    hide Paths.Join, Children, SortedList, HoldsNamespaces;
    NamespacesRead(files, SortedList(Children(files, ["namespaces"])), os);
  }
}
