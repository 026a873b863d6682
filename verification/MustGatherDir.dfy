/** resource.go: writing resources into a must-gather directory and reading a directory back. */
module MustGatherDir {
  import opened Seqs
  import opened GoStrings
  import opened Kube
  import opened Packing
  import Paths

  /** What decoding a file yields. */
  datatype File = ObjectFile(obj: Object) | ListFile(list: ListObject) | Garbled

  /** A directory tree: the path of every file below it, relative to its root. */
  type Files = map<string, File>

  predicate Loadable(path: string)
  {
    HasSuffix(path, ".yaml") || HasSuffix(path, ".json")
  }

  /** The types discovery gives the items of a list, unless one of them has none or several. */
  function ItemResources(d: Discovery, path: string, items: seq<Object>): Option<seq<ObjectResource>>
  {
    if items == [] then Some([])
    else
      var init := ItemResources(d, path, items[..|items| - 1]);
      var last := items[|items| - 1];
      if init.Some? && FindGVR(d, last.gvk).Ok?
      then Some(init.value + [Resource(path, FindGVR(d, last.gvk).value, last)])
      else None
  }

  function FileResources(d: Discovery, path: string, f: File): Option<seq<ObjectResource>>
  {
    match f
    case ObjectFile(o) => ItemResources(d, path, [o])
    case ListFile(l) => ItemResources(d, path, l.items)
    case Garbled => None
  }

  lemma SingleItem(d: Discovery, path: string, o: Object)
    ensures ItemResources(d, path, [o]) ==
            if FindGVR(d, o.gvk).Ok? then Some([Resource(path, FindGVR(d, o.gvk).value, o)]) else None
  {
    var items := [o];
    assert items[..|items| - 1] == [];
    var init := ItemResources(d, path, items[..|items| - 1]);
    assert init == Some([]);
    assert forall r: ObjectResource :: [] + [r] == [r];
  }

  lemma {:induction false} ItemResourcesPrefix(d: Discovery, path: string, items: seq<Object>, i: nat)
    requires i <= |items|
    requires ItemResources(d, path, items[..i]).None?
    ensures ItemResources(d, path, items).None?
    decreases |items|
  {
    if i == |items| {
      assert items[..i] == items;
    } else {
      assert items[..|items| - 1][..i] == items[..i];
      ItemResourcesPrefix(d, path, items[..|items| - 1], i);
    }
  }

  method ResourcesFromFile(d: Discovery, path: string, f: File) returns (r: Option<seq<ObjectResource>>)
    ensures r == FileResources(d, path, f)
  {
    match f {
      case Garbled => return None;
      case ObjectFile(o) =>
        var gvr := FindGVR(d, o.gvk);
        SingleItem(d, path, o);
        return if gvr.Ok? then Some([Resource(path, gvr.value, o)]) else None;
      case ListFile(l) =>
        var resources: seq<ObjectResource> := [];
        for i := 0 to |l.items|
          invariant ItemResources(d, path, l.items[..i]) == Some(resources)
        {
          assert l.items[..i + 1][..i] == l.items[..i];
          var gvr := FindGVR(d, l.items[i].gvk);
          if !gvr.Ok? {
            ItemResourcesPrefix(d, path, l.items, i + 1);
            return None;
          }
          resources := resources + [Resource(path, gvr.value, l.items[i])];
        }
        assert l.items[..|l.items|] == l.items;
        return Some(resources);
    }
  }

  /** The objects that a file holds. */
  function ObjectsIn(f: File): seq<Object>
  {
    match f
    case ObjectFile(o) => [o]
    case ListFile(l) => l.items
    case Garbled => []
  }

  /** Discovery knows exactly one type for the object, and it is the resource's. */
  predicate TypedAs(d: Discovery, o: Object, gvr: GVR)
  {
    o.gvk in d.resources && d.resources[o.gvk] == [gvr]
  }

  /** Discovery knows exactly one type for the object. */
  ghost predicate HasType(d: Discovery, o: Object)
  {
    exists gvr :: TypedAs(d, o, gvr)
  }

  lemma FindMeans(d: Discovery, o: Object)
    ensures FindGVR(d, o.gvk).Ok? <==> HasType(d, o)
    ensures FindGVR(d, o.gvk).Ok? ==> TypedAs(d, o, FindGVR(d, o.gvk).value)
  {
    if FindGVR(d, o.gvk).Ok? {
      assert d.resources[o.gvk] == [d.resources[o.gvk][0]];
      assert TypedAs(d, o, d.resources[o.gvk][0]);
    }
  }

  lemma {:induction false} ItemResourcesMean(d: Discovery, path: string, items: seq<Object>)
    ensures ItemResources(d, path, items).Some? <==> forall i :: 0 <= i < |items| ==> HasType(d, items[i])
    ensures ItemResources(d, path, items).Some? ==>
              var rs := ItemResources(d, path, items).value;
              |rs| == |items| && forall i :: 0 <= i < |items| ==>
                rs[i].filename == path && rs[i].content == items[i] && TypedAs(d, items[i], rs[i].resourceType)
  {
    hide TypedAs, HasType, FindGVR;
    if items != [] {
      var n := |items| - 1;
      ItemResourcesMean(d, path, items[..n]);
      FindMeans(d, items[n]);
      assert forall i :: 0 <= i < n ==> items[..n][i] == items[i];
    }
  }

  /** A file can be loaded exactly if it can be decoded and each of its objects has exactly one type; then it gives one
      resource per object, in order, of that type and under the name of the file. */
  lemma FileResourcesMean(d: Discovery, path: string, f: File)
    ensures FileResources(d, path, f).Some? <==>
            !f.Garbled? && forall i :: 0 <= i < |ObjectsIn(f)| ==> HasType(d, ObjectsIn(f)[i])
    ensures FileResources(d, path, f).Some? ==>
              var rs := FileResources(d, path, f).value;
              |rs| == |ObjectsIn(f)| && forall i :: 0 <= i < |rs| ==>
                rs[i].filename == path && rs[i].content == ObjectsIn(f)[i]
                && TypedAs(d, rs[i].content, rs[i].resourceType)
  {
    hide TypedAs, HasType, ItemResources;
    ItemResourcesMean(d, path, ObjectsIn(f));
    match f case ObjectFile(_) => case ListFile(_) => case Garbled =>
  }

  function ReadInOrder(d: Discovery, files: Files, order: seq<string>): seq<ObjectResource>
  {
    if order == [] then []
    else
      var path := order[|order| - 1];
      ReadInOrder(d, files, order[..|order| - 1]) +
      if path in files && FileResources(d, path, files[path]).Some?
        then FileResources(d, path, files[path]).value else []
  }

  predicate Readable(d: Discovery, files: Files, path: string)
  {
    path in files && FileResources(d, path, files[path]).Some?
  }

  /** The resource is one of its file: an object in it, of its one type. */
  predicate InFile(d: Discovery, files: Files, r: ObjectResource)
  {
    r.filename in files && r.content in ObjectsIn(files[r.filename]) && TypedAs(d, r.content, r.resourceType)
  }

  lemma FileRead(d: Discovery, files: Files, path: string, r: ObjectResource)
    requires Readable(d, files, path)
    ensures r in FileResources(d, path, files[path]).value <==> r.filename == path && InFile(d, files, r)
  {
    hide FileResources;
    FileResourcesMean(d, path, files[path]);
    var rs, os := FileResources(d, path, files[path]).value, ObjectsIn(files[path]);
    if r.filename == path && InFile(d, files, r) {
      var i :| 0 <= i < |os| && os[i] == r.content;
      assert rs[i].resourceType == d.resources[r.content.gvk][0] == r.resourceType;
      assert rs[i] == r;
    }
  }

  lemma {:induction false} OrderRead(d: Discovery, files: Files, order: seq<string>, r: ObjectResource)
    requires forall path :: path in order ==> Readable(d, files, path)
    ensures r in ReadInOrder(d, files, order) <==> r.filename in order && InFile(d, files, r)
  {
    hide InFile, FileResources;
    if order != [] {
      var path := order[|order| - 1];
      OrderRead(d, files, order[..|order| - 1], r);
      FileRead(d, files, path, r);
      assert order == order[..|order| - 1] + [path];
    }
  }

  /** What a walk that succeeds reads: the resources of exactly the files that end in ".yaml" or ".json". */
  lemma WalkReads(d: Discovery, files: Files, order: seq<string>, r: ObjectResource)
    requires Enumerates(order, set path | path in files && Loadable(path))
    requires forall path :: path in files && Loadable(path) ==> Readable(d, files, path)
    ensures r in ReadInOrder(d, files, order) <==>
            InFile(d, files, r) && exists stem: string :: r.filename == stem + ".yaml" || r.filename == stem + ".json"
  {
    hide InFile, FileResources, Loadable, Readable;
    OrderRead(d, files, order, r);
    LoadableExactly(r.filename);
    if InFile(d, files, r) { FoundInFiles(d, files, r); }
  }

  lemma FoundInFiles(d: Discovery, files: Files, r: ObjectResource)
    requires InFile(d, files, r)
    ensures r.filename in files
  {
  }

  lemma LoadableExactly(path: string)
    ensures Loadable(path) <==> exists stem: string :: path == stem + ".yaml" || path == stem + ".json"
  {
    if HasSuffix(path, ".yaml") { assert path == path[..|path| - 5] + ".yaml"; }
    if HasSuffix(path, ".json") { assert path == path[..|path| - 5] + ".json"; }
    if stem: string :| path == stem + ".yaml" || path == stem + ".json" {
      assert path[|path| - 5..] == ".yaml" || path[|path| - 5..] == ".json";
    }
  }

  function WriteAll(files: Files, rs: seq<PackedResource>): Files
  {
    if rs == [] then files
    else
      var last := rs[|rs| - 1];
      var before := WriteAll(files, rs[..|rs| - 1]);
      if last.filename == "" then before else before[Paths.Join([last.filename]) := ListFile(last.content)]
  }

  /** How writing one file ends: completely, without having begun, or in the middle. */
  datatype Write = Complete | NotBegun | Torn

  function PathOfPacked(r: PackedResource): string
  {
    Paths.Join([r.filename])
  }

  /** What writing one resource leaves behind. */
  function AfterWrite(files: Files, r: PackedResource, writes: string -> Write): Files
  {
    if r.filename == "" then files
    else match writes(PathOfPacked(r))
         case Complete => files[PathOfPacked(r) := ListFile(r.content)]
         case NotBegun => files
         case Torn => files[PathOfPacked(r) := Garbled]
  }

  function AfterWrites(files: Files, rs: seq<PackedResource>, writes: string -> Write): Files
  {
    if rs == [] then files else AfterWrite(AfterWrites(files, rs[..|rs| - 1], writes), rs[|rs| - 1], writes)
  }

  predicate Writes(r: PackedResource, writes: string -> Write)
  {
    r.filename != "" && writes(PathOfPacked(r)).Complete?
  }

  /** With every write complete, the files are those of the resources. */
  lemma {:induction false} CompleteWrites(files: Files, rs: seq<PackedResource>, writes: string -> Write)
    requires forall r :: r in rs ==> Writes(r, writes)
    ensures AfterWrites(files, rs, writes) == WriteAll(files, rs)
  {
    if rs != [] {
      assert Writes(rs[|rs| - 1], writes);
      CompleteWrites(files, rs[..|rs| - 1], writes);
    }
  }

  /** What a walk over a directory meets: the root or nothing, directories that cannot be listed, and files that can be
      read or not. */
  datatype Walk = Walk(rootFound: bool, unlistable: nat, readable: string -> bool)

  /** A directory walk: refused without discovery, panicking without a root, or ending with what was read. */
  datatype Walked = Undiscovered | Crashed | Loaded(ok: bool, resources: seq<ObjectResource>)

  class MustGatherDirectory {
    var files: Files

    constructor ()
      ensures files == map[]
    {
      files := map[];
    }

    /** A resource without a filename is refused; otherwise its content replaces the file of that name, if it can be
        written. */
    method WriteResource(r: PackedResource, writes: string -> Write) returns (ok: bool)
      modifies this
      ensures ok <==> Writes(r, writes)
      ensures files == AfterWrite(old(files), r, writes)
      ensures
        var path := Paths.Join([r.filename]);
        files == if r.filename == "" || writes(path) == NotBegun then old(files)
                 else old(files)[path := if writes(path) == Torn then Garbled else ListFile(r.content)]
    {
      if |r.filename| == 0 {
        return false;
      }
      var file := Paths.Join([r.filename]);
      match writes(file) {
        case Complete =>
          files := files[file := ListFile(r.content)];
          return true;
        case NotBegun =>
          return false;
        case Torn =>
          files := files[file := Garbled];
          return false;
      }
    }

    /** The write loop of `WriteRequiredInputResourcesFromMustGather`; an error does not stop it. */
    method WriteResources(rs: seq<PackedResource>, writes: string -> Write) returns (failures: nat)
      modifies this
      ensures files == AfterWrites(old(files), rs, writes)
      ensures failures == 0 <==> forall r :: r in rs ==> Writes(r, writes)
      ensures failures == 0 ==> files == WriteAll(old(files), rs)
    {
      hide AfterWrite, Writes;
      failures := 0;
      for i := 0 to |rs|
        invariant files == AfterWrites(old(files), rs[..i], writes)
        invariant failures == 0 <==> forall j :: 0 <= j < i ==> Writes(rs[j], writes)
      {
        assert rs[..i + 1][..i] == rs[..i];
        var ok := WriteResource(rs[i], writes);
        if !ok {
          failures := failures + 1;
        }
      }
      assert rs[..|rs|] == rs;
      assert forall r :: r in rs <==> exists j :: 0 <= j < |rs| && rs[j] == r;
      if failures == 0 { CompleteWrites(old(files), rs, writes); }
    }

    /** Walks the files in some order and stops at the first that cannot be read; a directory that cannot be listed
        fails the walk at its end. A missing root is met without a directory entry, and asking that whether it is a
        directory panics. */
    method LenientResourcesFromDirRecursive(d: Option<Discovery>, walk: Walk)
      returns (r: Walked, ghost order: seq<string>)
      ensures r.Undiscovered? <==> d.None?
      ensures r.Crashed? <==> d.Some? && !walk.rootFound
      ensures r.Loaded? ==>
                (r.ok <==> walk.unlistable == 0 && forall path :: path in files && Loadable(path) ==>
                             walk.readable(path) && Readable(d.value, files, path))
      ensures r.Loaded? && r.ok ==> Enumerates(order, set path | path in files && Loadable(path))
      ensures r.Loaded? ==> r.resources == ReadInOrder(d.value, files, order)
    {
      order := [];
      if d.None? {
        return Undiscovered, order;
      }
      if !walk.rootFound {
        return Crashed, order;
      }
      var rs: seq<ObjectResource> := [];
      var todo := files.Keys;
      while todo != {}
        invariant todo <= files.Keys
        invariant Distinct(order)
        invariant forall path :: path in order <==> path in files && path !in todo && Loadable(path)
        invariant forall path :: path in order ==> walk.readable(path) && Readable(d.value, files, path)
        invariant rs == ReadInOrder(d.value, files, order)
      {
        var path :| path in todo;
        todo := todo - {path};
        if Loadable(path) {
          if !walk.readable(path) {
            return Loaded(false, rs), order;
          }
          var read := ResourcesFromFile(d.value, path, files[path]);
          if read.None? {
            assert !Readable(d.value, files, path);
            return Loaded(false, rs), order;
          }
          assert (order + [path])[..|order|] == order;
          rs := rs + read.value;
          order := order + [path];
        }
      }
      return Loaded(walk.unlistable == 0, rs), order;
    }
  }
}
