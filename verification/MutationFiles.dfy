/** serialized_request.go, mutation_directory_writer.go and mutation_directory_reader.go of package manifestclient: the
    files of a request, what writing requests leaves in a directory, and what a directory reads as. */
module MutationFiles {
  import opened Seqs
  import opened GoStrings
  import opened Kube
  import opened Requests
  import Paths

  /** `sets.List(AllActions)`. */
  const ALL_ACTIONS: seq<string> :=
    ["Apply", "ApplyStatus", "Create", "Delete", "Patch", "PatchStatus", "Update", "UpdateStatus"]

  /** The encodings that files depend on: the last two bytes of a SHA-256 sum in hexadecimal, the YAML of lookup
      metadata and its decoding, and the kind that decoding a body as an object yields. */
  datatype Coding = Coding(
    hash: string -> string, yaml: Metadata -> string, parse: string -> Option<Metadata>, kindOf: string -> Option<GVK>)

  const HEX := "0123456789abcdef"

  /** Hashes are hexadecimal, and metadata survives encoding. */
  ghost predicate Sound(coding: Coding)
  {
    && (forall s :: forall ch :: ch in coding.hash(s) ==> ch in HEX)
    && (forall m :: coding.parse(coding.yaml(m)) == Some(m))
  }

  /** `hashRequestToPrefix`: the hash of the body, or of the options where there is no body. */
  function Hash(coding: Coding, x: Request): string
  {
    if x.body != "" then coding.hash(x.body)
    else if x.options != "" then coding.hash(x.options)
    else "MISSING"
  }

  /** `MakeFilenameGoModSafe`. */
  function Safe(s: string): string
  {
    if s == "" then "" else (if s[0] == ':' then "-COLON-" else [s[0]]) + Safe(s[1..])
  }

  function SafeAll(segs: seq<string>): seq<string>
  {
    seq(|segs|, i requires 0 <= i < |segs| => Safe(segs[i]))
  }

  function FullName(x: Request): string
  {
    x.metadata.name + x.metadata.generateName
  }

  function Directory(x: Request): seq<string>
  {
    var m := x.metadata;
    [m.action] + (if |m.namespace| > 0 then ["namespaces", m.namespace] else ["cluster-scoped-resources"]) +
    [if |m.resourceType.group| == 0 then "core" else m.resourceType.group, m.resourceType.resource]
  }

  const METADATA := "metadata"
  const BODY := "body"
  const OPTIONS := "options"

  predicate IsPart(part: string)
  {
    part == METADATA || part == BODY || part == OPTIONS
  }

  function BaseName(hash: string, part: string, name: string): string
  {
    hash + ['-'] + part + ['-'] + name + ".yaml"
  }

  /** `suggestedFilenames`: where a part of the request is written. */
  function PartPath(coding: Coding, x: Request, part: string): string
  {
    Safe(Paths.Join(Directory(x) + [BaseName(Hash(coding, x), part, FullName(x))]))
  }

  /** What the files of a request are named by: neither the controller instance, the field manager, the patch type and
      the version, nor the options beside a body. */
  datatype FileKey = FileKey(directory: seq<string>, hash: string, name: string)

  function KeyOf(coding: Coding, x: Request): FileKey
  {
    FileKey(SafeAll(Directory(x)), Hash(coding, x), Safe(FullName(x)))
  }

  function KeyPath(k: FileKey, part: string): string
  {
    JoinWith(k.directory + [BaseName(k.hash, part, k.name)], '/')
  }

  /** Two requests are written to the same files. */
  predicate SharesFiles(coding: Coding, x: Request, y: Request)
  {
    PartPath(coding, x, BODY) == PartPath(coding, y, BODY)
  }

  /** Names that an API server accepts in a path: each part names one directory entry, and there are no line breaks. */
  predicate PlainRequest(x: Request)
  {
    var m := x.metadata;
    && Paths.Plain(m.action) && ':' !in m.action
    && (m.namespace == "" || Paths.Plain(m.namespace))
    && (m.resourceType.group == "" || Paths.Plain(m.resourceType.group))
    && Paths.Plain(m.resourceType.resource)
    && '/' !in FullName(x) && '\n' !in FullName(x)
  }

  predicate PlainKey(k: FileKey)
  {
    && |k.directory| > 1 && (forall s :: s in k.directory ==> Paths.Plain(s))
    && '-' !in k.hash && 'o' !in k.hash && '/' !in k.hash
    && '/' !in k.name && '\n' !in k.name
  }

  /** The files that writing one request completely leaves; options are only written where there are any. */
  function Puts(coding: Coding, x: Request): map<string, string>
  {
    map[PartPath(coding, x, METADATA) := coding.yaml(x.metadata)][PartPath(coding, x, BODY) := x.body] +
    if x.options != "" then map[PartPath(coding, x, OPTIONS) := x.options] else map[]
  }

  predicate Has(files: map<string, string>, path: string, content: string)
  {
    path in files && files[path] == content
  }

  /** Later requests overwrite the files of earlier ones. */
  function AfterComplete(coding: Coding, files: map<string, string>, xs: seq<Request>): map<string, string>
  {
    if xs == [] then files else AfterComplete(coding, files, xs[..|xs| - 1]) + Puts(coding, xs[|xs| - 1])
  }

  /** What the last request to write the path writes there. */
  function LastPut(coding: Coding, xs: seq<Request>, path: string): Option<string>
  {
    if xs == [] then None
    else
      var last := Puts(coding, xs[|xs| - 1]);
      if path in last then Some(last[path]) else LastPut(coding, xs[..|xs| - 1], path)
  }

  lemma {:induction false} AfterCompleteAt(coding: Coding, files: map<string, string>, xs: seq<Request>, path: string)
    ensures path in AfterComplete(coding, files, xs) <==> path in files || LastPut(coding, xs, path).Some?
    ensures path in AfterComplete(coding, files, xs) ==>
              AfterComplete(coding, files, xs)[path] ==
              if LastPut(coding, xs, path).Some? then LastPut(coding, xs, path).value else files[path]
  {
    hide Puts;
    if xs != [] { AfterCompleteAt(coding, files, xs[..|xs| - 1], path); }
  }

  lemma {:induction false} LastPutIn(coding: Coding, xs: seq<Request>, path: string)
    ensures LastPut(coding, xs, path).Some? <==> exists x :: x in xs && path in Puts(coding, x)
    ensures LastPut(coding, xs, path).Some? ==>
              exists x :: x in xs && path in Puts(coding, x) && LastPut(coding, xs, path).value == Puts(coding, x)[path]
  {
    hide Puts;
    if xs != [] {
      var init, last := xs[..|xs| - 1], xs[|xs| - 1];
      assert xs == init + [last] && last in xs;
      LastPutIn(coding, init, path);
      assert forall x :: x in xs <==> x in init || x == last;
    }
  }

  lemma {:induction false} LastPutAppend(coding: Coding, a: seq<Request>, b: seq<Request>, path: string)
    ensures LastPut(coding, a + b, path) ==
            if LastPut(coding, b, path).Some? then LastPut(coding, b, path) else LastPut(coding, a, path)
  {
    hide Puts;
    if b == [] {
      assert a + b == a;
    } else {
      assert (a + b)[..|a + b| - 1] == a + b[..|b| - 1];
      LastPutAppend(coding, a, b[..|b| - 1], path);
    }
  }

  // Reading

  /** The regular expression for body files, `.*-body-(.+).yaml`, matches somewhere in the name; its last dot stands for
      any character. */
  predicate MatchesBody(base: string)
  {
    exists i: nat, end: nat ::
      i < end && end < |base| && HasAt(base, i, "-body-") && HasAt(base, end, "yaml")
      && i + 8 <= end && '\n' !in base[i + 6..end]
  }

  datatype Reading = Ignored | Unreadable | Found(request: Request)

  function Sibling(segs: seq<string>, base: string): string
    requires segs != []
  {
    JoinWith(segs[..|segs| - 1] + [base], '/')
  }

  /** The body of a request is at `path`; its other parts are looked for beside it. */
  function ReadParts(
    coding: Coding, files: map<string, string>, action: string, path: string, metadataPath: string, optionsPath: string)
    : Reading
    requires path in files
  {
    if metadataPath !in files || coding.parse(files[metadataPath]).None? then Unreadable
    else
      var metadata := coding.parse(files[metadataPath]).value;
      var options := if optionsPath in files then files[optionsPath] else "";
      if action == "Patch" || action == "PatchStatus"
      then Found(Request(metadata, GVK("", "", ""), options, files[path]))
      else if coding.kindOf(files[path]).None? then Unreadable
      else Found(Request(metadata, coding.kindOf(files[path]).value, options, files[path]))
  }

  /** `serializedRequestFromFile` for one file below the directory of an action. */
  function ReadAt(coding: Coding, files: map<string, string>, path: string): Reading
    requires path in files
  {
    var segs := Split(path, '/');
    var base := segs[|segs| - 1];
    if |segs| < 2 || segs[0] !in ALL_ACTIONS then Ignored
    else if !HasSuffix(base, ".yaml") && !HasSuffix(base, ".json") then Ignored
    else if !MatchesBody(base) then Ignored
    else
      var optionsPath := Sibling(segs, ReplaceFirst(base, "body", "options"));
      var metadataPath := Sibling(segs, ReplaceFirst(base, "body", "metadata"));
      ReadParts(coding, files, segs[0], path, metadataPath, optionsPath)
  }

  predicate FoundAt(coding: Coding, files: map<string, string>, path: string, x: Request)
  {
    path in files && ReadAt(coding, files, path) == Found(x)
  }

  /** The directory reads without error. */
  predicate Readable(coding: Coding, files: map<string, string>)
  {
    forall path :: path in files ==> ReadAt(coding, files, path) != Unreadable
  }

  /** The requests that a directory reads as. */
  ghost predicate IsRead(coding: Coding, files: map<string, string>, x: Request)
  {
    exists path :: FoundAt(coding, files, path, x)
  }

  /** The directory reads as exactly the requests, each once. */
  ghost predicate ReadsExactly(coding: Coding, files: map<string, string>, xs: set<Request>)
  {
    && Readable(coding, files)
    && (forall x :: x in xs <==> IsRead(coding, files, x))
    && (forall x, p, q :: FoundAt(coding, files, p, x) && FoundAt(coding, files, q, x) ==> p == q)
  }

  /** `readMutationFS`: action by action, every file below. An error leaves nothing read. */
  method ReadMutationDirectory(coding: Coding, files: map<string, string>) returns (r: Option<seq<Request>>)
    ensures r.Some? <==> Readable(coding, files)
    ensures r.Some? ==> forall x :: x in r.value <==> IsRead(coding, files, x)
    ensures r.Some? ==> |r.value| == |set path | path in files && ReadAt(coding, files, path).Found?|
  {
    hide ReadAt;
    var requests: seq<Request> := [];
    var failed := false;
    var todo := files.Keys;
    ghost var found: set<string> := {};
    while todo != {}
      invariant todo <= files.Keys
      invariant failed <==> exists path :: path in files && path !in todo && ReadAt(coding, files, path) == Unreadable
      invariant forall path :: path in found <==>
                                 path in files && path !in todo && ReadAt(coding, files, path).Found?
      invariant |requests| == |found|
      invariant forall x :: x in requests <==> exists path :: path in found && FoundAt(coding, files, path, x)
    {
      var path :| path in todo;
      todo := todo - {path};
      var reading := ReadAt(coding, files, path);
      match reading {
        case Ignored =>
        case Unreadable =>
          failed := true;
        case Found(x) =>
          assert FoundAt(coding, files, path, x);
          requests := requests + [x];
          found := found + {path};
      }
    }
    assert found == set path | path in files && ReadAt(coding, files, path).Found?;
    return if failed then None else Some(requests);
  }
}
