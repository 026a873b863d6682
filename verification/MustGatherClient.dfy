/** The client that reads a must-gather directory: the manifestclient round tripper under the dynamic client. */
module MustGatherClient {
  import opened Seqs
  import opened GoStrings
  import opened Kube
  import opened Packing
  import opened MustGatherDir
  import opened Prune
  import Paths

  /** Whether a label selector, given by its text, accepts an object. */
  type LabelMatch = (string, Object) -> bool

  function MatchesLabels(matches: LabelMatch, selector: string): Object -> bool
  {
    o => matches(selector, o)
  }

  predicate ValidSegment(s: string)
  {
    s != "." && s != ".." && '/' !in s && '%' !in s
  }

  /** Requests the dynamic client sends at all; the others fail before anything is read. */
  predicate ValidGet(id: ExactResourceID)
  {
    id.name != "" && id.resourceType.resource != "" && ValidSegment(id.namespace) && ValidSegment(id.name)
  }

  /** The namespace that request parsing finds in the URL: for .../namespaces/NAME it is NAME itself. */
  function RequestNamespace(id: ExactResourceID): string
  {
    if id.resourceType.resource == "namespaces" && id.namespace == "" then id.name else id.namespace
  }

  const CORE_NAMESPACES := GVR("", "v1", "namespaces")

  function ScopeSegments(namespace: string): seq<string>
  {
    if |namespace| > 0 then ["namespaces", namespace] else ["cluster-scoped-resources"]
  }

  function IndividualDirectory(gvr: GVR, namespace: string): seq<string>
  {
    ScopeSegments(namespace) + [GroupDirectory(gvr.group), gvr.resource]
  }

  function IndividualLocation(gvr: GVR, namespace: string, name: string): string
  {
    if gvr == CORE_NAMESPACES && namespace == name
    then Paths.Join(["namespaces", name, name + ".yaml"])
    else Paths.Join(IndividualDirectory(gvr, namespace) + [name + ".yaml"])
  }

  function ListLocation(gvr: GVR, namespace: string): string
  {
    Paths.Join(ScopeSegments(namespace) + [GroupDirectory(gvr.group), gvr.resource + ".yaml"])
  }

  function SameVersion(o: Object, gvr: GVR): bool
  {
    o.gvk.group == gvr.group && o.gvk.version == gvr.version
  }

  /** `individualFromList`: the first item of the name, its kind derived from the list's. */
  function FromList(l: ListObject, name: string): Option<Object>
  {
    FindNamed(l.items, name, TrimSuffix(l.gvk.kind, "List"))
  }

  function FindNamed(items: seq<Object>, name: string, kind: string): Option<Object>
  {
    if items == [] then None
    else if items[0].name == name then Some(items[0].(gvk := items[0].gvk.(kind := kind)))
    else FindNamed(items[1..], name, kind)
  }

  /** A file of its own wins over the list file; a version other than the requested one is an error. A location that
      holds the other form of content is a failed read here. */
  function Get(files: Files, id: ExactResourceID): Reply<Object>
  {
    if !ValidGet(id) then Failed
    else
      var gvr, ns := id.resourceType, RequestNamespace(id);
      var individual := IndividualLocation(gvr, ns, id.name);
      if individual in files then
        match files[individual]
        case ObjectFile(o) => if SameVersion(o, gvr) then Got(o) else Failed
        case _ => Failed
      else if ListLocation(gvr, ns) !in files then NotFound
      else
        match files[ListLocation(gvr, ns)]
        case ListFile(l) =>
          (match FromList(l, id.name)
           case None => NotFound
           case Some(o) => if SameVersion(o, gvr) then Got(o) else Failed)
        case _ => Failed
  }

  /** The names directly below a directory. */
  ghost function Children(files: Files, dir: seq<string>): set<string>
  {
    set p | p in files && |Split(p, '/')| > |dir| && Split(p, '/')[..|dir|] == dir :: Split(p, '/')[|dir|]
  }

  /** The namespaces a listing visits; "" stands for the cluster scope, which comes first. */
  ghost function ListedNamespaces(files: Files, namespace: string): seq<string>
  {
    if namespace != "" then [namespace] else [""] + SortedList(Children(files, ["namespaces"]))
  }

  function ListedAt(files: Files, gvr: GVR, namespace: string): Reply<ListObject>
  {
    var path := ListLocation(gvr, namespace);
    if path !in files then NotFound
    else match files[path] case ListFile(l) => Got(l) case _ => Failed
  }

  /** The list files of the visited namespaces, in order; absent ones are skipped, an unreadable one fails the
      listing. */
  function ReadLists(files: Files, gvr: GVR, namespaces: seq<string>): Option<seq<ListObject>>
  {
    if namespaces == [] then Some([])
    else
      var before := ReadLists(files, gvr, namespaces[..|namespaces| - 1]);
      match ListedAt(files, gvr, namespaces[|namespaces| - 1])
      case Failed => None
      case NotFound => before
      case Got(l) => if before.None? then None else Some(before.value + [l])
  }

  function ItemsOfLists(ls: seq<ListObject>): seq<Object>
  {
    if ls == [] then [] else ItemsOfLists(ls[..|ls| - 1]) + ls[|ls| - 1].items
  }

  /** The objects in files of their own below one directory, in name order; an entry that is not such a file fails. */
  ghost function ReadIndividuals(files: Files, dir: seq<string>, names: seq<string>): Option<seq<Object>>
  {
    if names == [] then Some([])
    else
      var before := ReadIndividuals(files, dir, names[..|names| - 1]);
      var path := Paths.Join(dir + [names[|names| - 1]]);
      if before.Some? && path in files && files[path].ObjectFile? then Some(before.value + [files[path].obj]) else None
  }

  ghost function ReadAllIndividuals(files: Files, gvr: GVR, namespaces: seq<string>): Option<seq<Object>>
  {
    if namespaces == [] then Some([])
    else
      var before := ReadAllIndividuals(files, gvr, namespaces[..|namespaces| - 1]);
      var dir := IndividualDirectory(gvr, namespaces[|namespaces| - 1]);
      var here := ReadIndividuals(files, dir, SortedList(Children(files, dir)));
      if before.Some? && here.Some? then Some(before.value + here.value) else None
  }

  /** Namespaces live in namespaces/NAME/NAME.yaml; the selector is not applied to them. */
  ghost function ReadNamespaces(files: Files, names: seq<string>): Option<seq<Object>>
  {
    if names == [] then Some([])
    else
      var before := ReadNamespaces(files, names[..|names| - 1]);
      var name := names[|names| - 1];
      var path := Paths.Join(["namespaces", name, name + ".yaml"]);
      if path !in files then before
      else if before.Some? && files[path].ObjectFile? then Some(before.value + [files[path].obj])
      else None
  }

  function ListKindOf(kind: GVK): GVK
  {
    GVK(kind.group, kind.version, kind.kind + "List")
  }

  /** List files first, in namespace order; only without any are files of their own consulted. */
  ghost function List(d: Discovery, files: Files, matches: LabelMatch, sel: LabelSelected): Reply<seq<Object>>
  {
    var gvr := sel.resourceType;
    if !ValidSegment(sel.namespace) || gvr.resource == "" then Failed
    else if gvr == CORE_NAMESPACES then
      match ReadNamespaces(files, SortedList(Children(files, ["namespaces"])))
      case Some(os) => Got(os)
      case None => Failed
    else if gvr !in d.kinds then Failed
    else
      var namespaces := ListedNamespaces(files, sel.namespace);
      match ReadLists(files, gvr, namespaces)
      case None => Failed
      case Some(ls) =>
        if ls != [] then
          if ls[0].gvk != ListKindOf(d.kinds[gvr]) then Failed
          else Got(Filter(ItemsOfLists(ls), MatchesLabels(matches, sel.selector)))
        else
          match ReadAllIndividuals(files, gvr, namespaces)
          case None => Failed
          case Some(os) =>
            if os != [] && os[0].gvk != d.kinds[gvr] then Failed
            else Got(Filter(os, MatchesLabels(matches, sel.selector)))
  }

  ghost function DirectoryClient(d: Discovery, files: Files, matches: LabelMatch): Client
  {
    Client(id => Get(files, id), sel => List(d, files, matches, sel))
  }
}
