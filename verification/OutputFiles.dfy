/** The output directory of a run: its entries, and what writing requests into it leaves there. */
module OutputFiles {
  import opened Kube
  import opened Controllers
  import opened Requests
  import opened AllowList
  import opened MutationFiles

  /** What the results file says; "null" for no results. */
  datatype ResultsContent = Empty | NotYaml | Results(results: Option<ApplyConfigurationRunResult>)

  /** An empty list of errors is omitted from the file. */
  function OmitEmpty(r: ControllerRunResult): ControllerRunResult
  {
    if r.errors == Some([]) then r.(errors := None) else r
  }

  /** What marshalling results puts into the file. */
  function Marshalled(results: Option<ApplyConfigurationRunResult>): Option<ApplyConfigurationRunResult>
  {
    match results
    case Some(ApplyConfigurationRunResult(Some(rs))) =>
      Some(ApplyConfigurationRunResult(Some(seq(|rs|, i requires 0 <= i < |rs| => OmitEmpty(rs[i])))))
    case _ => results
  }

  /** An entry of the output directory. A directory of requests holds their files, by path. */
  datatype Entry =
    | TextFile(text: string)
    | ResultsFile(content: ResultsContent)
    | RequestDirectory(files: map<string, string>)

  type Entries = map<string, Entry>

  function ClusterName(c: ClusterType): string
  {
    match c
    case Configuration => "Configuration"
    case Management => "Management"
    case UserWorkload => "UserWorkload"
  }

  const UNSPECIFIED := "Unspecified"
  const RESULTS := "controller-results.yaml"
  const STDOUT := "stdout.log"
  const STDERR := "stderr.log"

  predicate IsClusterName(name: string)
  {
    name == "Configuration" || name == "Management" || name == "UserWorkload"
  }

  /** The files in the directory of the name. */
  function FilesIn(es: Entries, name: string): map<string, string>
  {
    if name in es && es[name].RequestDirectory? then es[name].files else map[]
  }

  /** The entry of the name is as it was, or still absent. */
  predicate SameEntry(before: Entries, after: Entries, name: string)
  {
    (name in after <==> name in before) && (name in after ==> after[name] == before[name])
  }

  /** How writing a file ends: completely, without having begun, or leaving other content. */
  datatype FileWrite = Complete | NotBegun | Torn(content: string)

  /** How writing the files of a request ends; without their parent directory, none is written. */
  datatype RequestWrite = NoParent(created: bool) | Parts(metadata: FileWrite, body: FileWrite, options: FileWrite)

  /** What the file system does to a run: `request(name, i)` is how the `i`-th request written to the directory ends. */
  datatype Io = Io(
    coding: Coding, mkdirOk: bool, marshalOk: bool, resultsOk: bool, request: (string, nat) -> RequestWrite)

  function Put(files: map<string, string>, path: string, content: string, w: FileWrite): map<string, string>
  {
    match w
    case Complete => files[path := content]
    case NotBegun => files
    case Torn(left) => files[path := left]
  }

  /** The files after writing a request: metadata, body, and options where there are any; no failure stops the next. */
  function AfterRequest(coding: Coding, files: map<string, string>, x: Request, w: RequestWrite): map<string, string>
  {
    match w
    case NoParent(_) => files
    case Parts(metadata, body, options) =>
      var withMetadata := Put(files, PartPath(coding, x, METADATA), coding.yaml(x.metadata), metadata);
      var withBody := Put(withMetadata, PartPath(coding, x, BODY), x.body, body);
      if x.options == "" then withBody else Put(withBody, PartPath(coding, x, OPTIONS), x.options, options)
  }

  /** All files of the request are written. */
  predicate Whole(x: Request, w: RequestWrite)
  {
    w.Parts? && w.metadata.Complete? && w.body.Complete? && (x.options == "" || w.options.Complete?)
  }

  /** The directory exists after the write. */
  predicate Begun(w: RequestWrite)
  {
    w.NoParent? ==> w.created
  }

  lemma WholePuts(coding: Coding, files: map<string, string>, x: Request, w: RequestWrite)
    requires Whole(x, w)
    ensures AfterRequest(coding, files, x, w) == files + Puts(coding, x)
  {
    hide PartPath;
  }

  /** The entries after writing requests to the directory of the name, one after the other. */
  function AfterWrites(io: Io, name: string, es: Entries, xs: seq<Request>): Entries
  {
    if xs == [] then es
    else
      var n := |xs| - 1;
      AfterWrite(io, name, AfterWrites(io, name, es, xs[..n]), n, xs[n])
  }

  /** The entries after writing the `i`-th request. */
  function AfterWrite(io: Io, name: string, es: Entries, i: nat, x: Request): Entries
  {
    if !Begun(io.request(name, i)) then es
    else es[name := RequestDirectory(AfterRequest(io.coding, FilesIn(es, name), x, io.request(name, i)))]
  }

  lemma AllWholeStep(io: Io, name: string, xs: seq<Request>, i: nat)
    requires i < |xs|
    ensures AllWhole(io, name, xs[..i + 1]) <==> AllWhole(io, name, xs[..i]) && Whole(xs[i], io.request(name, i))
  {
    hide Whole;
    assert xs[..i + 1] == xs[..i] + [xs[i]];
  }

  predicate AllWhole(io: Io, name: string, xs: seq<Request>)
  {
    forall i :: 0 <= i < |xs| ==> Whole(xs[i], io.request(name, i))
  }

  lemma NothingWhole(io: Io, name: string)
    ensures AllWhole(io, name, [])
  {
  }

  predicate SomeBegun(io: Io, name: string, xs: seq<Request>)
  {
    exists i :: 0 <= i < |xs| && (io.request(name, i).Parts? || io.request(name, i).created)
  }

  /** Only the entry of the name changes, and it is a directory of requests once a write has begun. */
  lemma {:induction false} AfterWritesEntries(io: Io, name: string, es: Entries, xs: seq<Request>)
    ensures forall n :: n != name ==> SameEntry(es, AfterWrites(io, name, es, xs), n)
    ensures forall n :: n in es ==> n in AfterWrites(io, name, es, xs)
    ensures if SomeBegun(io, name, xs)
            then name in AfterWrites(io, name, es, xs) && AfterWrites(io, name, es, xs)[name].RequestDirectory?
            else AfterWrites(io, name, es, xs) == es
  {
    hide AfterRequest;
    if xs != [] {
      var n := |xs| - 1;
      AfterWritesEntries(io, name, es, xs[..n]);
      assert SomeBegun(io, name, xs) <==> SomeBegun(io, name, xs[..n]) || Begun(io.request(name, n));
      var before, after := AfterWrites(io, name, es, xs[..n]), AfterWrites(io, name, es, xs);
      forall k | k != name ensures SameEntry(es, after, k) { assert SameEntry(es, before, k); }
    }
  }

  /** What becomes of the entry does not depend on the others. */
  lemma {:induction false} AfterWritesLocal(io: Io, name: string, es: Entries, es': Entries, xs: seq<Request>)
    requires SameEntry(es, es', name)
    ensures SameEntry(AfterWrites(io, name, es, xs), AfterWrites(io, name, es', xs), name)
  {
    hide AfterRequest;
    if xs != [] { AfterWritesLocal(io, name, es, es', xs[..|xs| - 1]); }
  }

  /** Whole writes leave what the requests put, the later over the earlier. */
  lemma {:induction false} AfterWholeWrites(io: Io, name: string, es: Entries, xs: seq<Request>)
    requires AllWhole(io, name, xs) && xs != []
    ensures AfterWrites(io, name, es, xs) ==
            es[name := RequestDirectory(AfterComplete(io.coding, FilesIn(es, name), xs))]
  {
    hide AfterRequest, Puts;
    var n := |xs| - 1;
    var init := xs[..n];
    WholePuts(io.coding, FilesIn(AfterWrites(io, name, es, init), name), xs[n], io.request(name, n));
    if init == [] {
      assert AfterComplete(io.coding, FilesIn(es, name), init) == FilesIn(es, name);
    } else {
      forall i | 0 <= i < |init| ensures Whole(init[i], io.request(name, i)) { assert init[i] == xs[i]; }
      AfterWholeWrites(io, name, es, init);
    }
  }

  class OutputDirectory {
    var entries: Entries

    constructor (initial: Entries)
      ensures entries == initial
    {
      entries := initial;
    }

    /** `WriteMutationDirectory`: the requests are written one after the other, to files that later ones may overwrite;
        no failure stops the next, and nothing is created for no requests. */
    method WriteMutations(io: Io, name: string, requests: seq<Request>) returns (ok: bool)
      modifies this
      ensures ok <==> AllWhole(io, name, requests)
      ensures entries == AfterWrites(io, name, old(entries), requests)
    {
      hide AllWhole, Whole, AfterWrite;
      ok := true;
      assert AllWhole(io, name, []) by { NothingWhole(io, name); }
      for i := 0 to |requests|
        invariant ok <==> AllWhole(io, name, requests[..i])
        invariant entries == AfterWrites(io, name, old(entries), requests[..i])
      {
        assert requests[..i + 1][..i] == requests[..i];
        var written := WriteRequest(io, name, i, requests[i]);
        AllWholeStep(io, name, requests, i);
        if !written {
          ok := false;
        }
      }
      assert requests[..|requests|] == requests;
    }

    /** The files of one request. */
    method WriteRequest(io: Io, name: string, i: nat, request: Request) returns (ok: bool)
      modifies this
      ensures ok <==> Whole(request, io.request(name, i))
      ensures entries == AfterWrite(io, name, old(entries), i, request)
    {
      var files := FilesIn(entries, name);
      match io.request(name, i) {
        case NoParent(created) =>
          if created {
            entries := entries[name := RequestDirectory(files)];
          }
          return false;
        case Parts(metadata, body, options) =>
          files := Put(files, PartPath(io.coding, request, METADATA), io.coding.yaml(request.metadata), metadata);
          files := Put(files, PartPath(io.coding, request, BODY), request.body, body);
          if |request.options| > 0 {
            files := Put(files, PartPath(io.coding, request, OPTIONS), request.options, options);
          }
          entries := entries[name := RequestDirectory(files)];
          return metadata.Complete? && body.Complete? && (|request.options| == 0 || options.Complete?);
      }
    }
  }
}
