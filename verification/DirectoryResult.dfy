/** directory_apply_configuration.go: the result that an output directory and an exit error amount to. */
module DirectoryResult {
  import opened Kube
  import opened Controllers
  import opened Requests
  import opened AllowList
  import opened Unspecified
  import opened MutationFiles
  import opened MutationRoundTrip
  import opened OutputFiles
  import opened ApplyConfiguration

  /** An error of the executed process; only a process that ran and exited reports an exit code. */
  datatype ExecError = ExitError(code: int) | OtherExecError

  datatype ReadError =
    | StdoutUnreadable
    | StderrUnreadable
    | ResultsUnreadable
    | ResultsNotParsed
    | ConfigurationUnreadable
    | UnexpectedEntry(name: string)
    | ExecFailed(error: ExecError)

  /** The error returned beside a result: the exec error alone, or all accumulated errors joined. */
  datatype Failure = Exec(error: ExecError) | Joined(errs: seq<ReadError>) | CannotList | CannotStart

  /** A directory as the reader finds it. Reading a broken entry fails after yielding what `broken` says. */
  datatype View = Absent | Unlistable | Listed(entries: Entries, broken: Entries)

  /** The mutations of a result: loaded, never built (no getters), or nil after a failed build. */
  datatype Loaded = Loaded(requests: map<ClusterType, set<Request>>) | NeverBuilt | NilConfiguration

  datatype Result = Result(
    stdout: string, stderr: string, controllerResults: Option<ApplyConfigurationRunResult>, mutations: Loaded,
    error: Option<seq<ReadError>>)

  const MAX_LOG: nat := 512 * 1024

  /** The last 512 KiB of a log. */
  function Tail(text: string): string
  {
    if |text| > MAX_LOG then text[|text| - MAX_LOG..] else text
  }

  /** The read of the entry fails; no file can be read from a directory. */
  predicate ReadFails(v: View, name: string)
  {
    v.Listed? && name in v.entries && (name in v.broken || v.entries[name].RequestDirectory?)
  }

  /** What reading the entry yields, failing or not. */
  function Yields(v: View, name: string): Option<Entry>
  {
    if !v.Listed? || name !in v.entries then None
    else if name in v.broken then Some(v.broken[name])
    else Some(v.entries[name])
  }

  function LogText(v: View, name: string): string
  {
    match Yields(v, name)
    case Some(TextFile(text)) => Tail(text)
    case _ => ""
  }

  /** A log's last 512 KiB, even of one whose reading failed. */
  method ReadLog(v: View, name: string, failed: ReadError) returns (text: string, errs: seq<ReadError>)
    ensures errs == if ReadFails(v, name) then [failed] else []
    ensures text == LogText(v, name)
  {
    hide MAX_LOG;
    text, errs := "", [];
    if ReadFails(v, name) {
      errs := errs + [failed];
    }
    var content := Yields(v, name);
    if content.Some? && content.value.TextFile? {
      text := content.value.text;
    }
    if |text| > MAX_LOG {
      var indexToStart := |text| - MAX_LOG;
      text := text[indexToStart..];
    }
  }

  /** A log is given whole up to 512 KiB, and of a longer one the last 512 KiB. */
  lemma LogKept(v: View, name: string, head: string, tail: string)
    requires Yields(v, name) == Some(TextFile(head + tail))
    requires |tail| == 524288 || (|tail| < 524288 && head == "")
    ensures LogText(v, name) == tail
  {
    assert (head + tail)[|head|..] == tail;
  }

  /** The content of the results file, as far as it was read. */
  function ResultsYielded(v: View): ResultsContent
  {
    match Yields(v, RESULTS)
    case Some(ResultsFile(content)) => content
    case _ => Empty
  }

  /** What the results file yields: no results when absent, empty or unparsable; "null" reads as results with a nil
      list. */
  function ParsedResults(content: ResultsContent): Option<ApplyConfigurationRunResult>
  {
    match content
    case Results(Some(rs)) => Some(rs)
    case Results(None) => Some(ApplyConfigurationRunResult(None))
    case _ => None
  }

  /** What results read as, field by field, once they have been written: an empty list of errors becomes none, and no
      results become a nil list. */
  predicate ReadBackAs(given: Option<ApplyConfigurationRunResult>, read: Option<ApplyConfigurationRunResult>)
  {
    match given
    case Some(ApplyConfigurationRunResult(Some(rs))) =>
      && read.Some? && read.value.controllerResults.Some?
      && |read.value.controllerResults.value| == |rs|
      && forall i :: 0 <= i < |rs| ==>
           var r := read.value.controllerResults.value[i];
           && r.name == rs[i].name && r.status == rs[i].status && r.panicStack == rs[i].panicStack
           && r.errors == if rs[i].errors == Some([]) then None else rs[i].errors
    case _ => read == Some(ApplyConfigurationRunResult(None))
  }

  /** There are results, and no list of errors in them is empty. */
  predicate Writable(given: Option<ApplyConfigurationRunResult>)
  {
    && given.Some?
    && (given.value.controllerResults.Some? ==>
          forall i :: 0 <= i < |given.value.controllerResults.value| ==>
            given.value.controllerResults.value[i].errors != Some([]))
  }

  lemma MarshalledReadsBack(given: Option<ApplyConfigurationRunResult>)
    ensures ReadBackAs(given, ParsedResults(Results(Marshalled(given))))
  {
  }

  lemma ReadBackUnique(
    given: Option<ApplyConfigurationRunResult>, a: Option<ApplyConfigurationRunResult>,
    b: Option<ApplyConfigurationRunResult>)
    requires ReadBackAs(given, a) && ReadBackAs(given, b)
    ensures a == b
  {
    if given.Some? && given.value.controllerResults.Some? {
      var x, y := a.value.controllerResults.value, b.value.controllerResults.value;
      forall i | 0 <= i < |x| ensures x[i] == y[i] {
        var r := given.value.controllerResults.value[i];
        assert x[i].name == r.name == y[i].name && x[i].errors == y[i].errors;
      }
      assert x == y;
    }
  }

  /** Exactly what can be written unchanged comes back unchanged. */
  lemma UnchangedExactly(given: Option<ApplyConfigurationRunResult>, read: Option<ApplyConfigurationRunResult>)
    requires ReadBackAs(given, read)
    ensures read == given <==> Writable(given)
  {
    if Writable(given) {
      ReadBackUnique(given, read, given);
    } else if given.Some? {
      var rs := given.value.controllerResults.value;
      var i :| 0 <= i < |rs| && rs[i].errors == Some([]);
      assert read.value.controllerResults.value[i].errors != rs[i].errors;
    }
  }

  predicate BadResults(v: View)
  {
    ReadFails(v, RESULTS) || ResultsYielded(v).NotYaml?
  }

  /** A failed read does not stop the parsing of what was read. */
  method ReadResults(v: View) returns (results: Option<ApplyConfigurationRunResult>, errs: seq<ReadError>)
    ensures errs == (if ReadFails(v, RESULTS) then [ResultsUnreadable] else []) +
                    (if ResultsYielded(v).NotYaml? then [ResultsNotParsed] else [])
    ensures results == ParsedResults(ResultsYielded(v))
  {
    results, errs := None, [];
    if ReadFails(v, RESULTS) {
      errs := errs + [ResultsUnreadable];
    }
    var yielded := Yields(v, RESULTS);
    if yielded.None? || !yielded.value.ResultsFile? {
      return;
    }
    match yielded.value.content {
      case Empty =>
      case NotYaml =>
        errs := errs + [ResultsNotParsed];
      case Results(parsed) =>
        var decoded := ApplyConfigurationRunResult(None);
        if parsed.Some? {
          decoded := decoded.(controllerResults := parsed.value.controllerResults);
        }
        results := Some(decoded);
    }
  }

  /** A cluster type's directory is read without error when it is absent, or its files can all be read. */
  predicate ReadableCluster(coding: Coding, v: View, c: ClusterType)
    requires v.Listed?
  {
    ClusterName(c) in v.entries ==>
      && v.entries[ClusterName(c)].RequestDirectory? && ClusterName(c) !in v.broken
      && Readable(coding, FilesIn(v.entries, ClusterName(c)))
  }

  /** The requests that files read as. */
  function ReadSet(coding: Coding, files: map<string, string>): set<Request>
  {
    set path | path in files && ReadAt(coding, files, path).Found? :: ReadAt(coding, files, path).request
  }

  lemma ReadSetIsRead(coding: Coding, files: map<string, string>)
    ensures forall x :: x in ReadSet(coding, files) <==> IsRead(coding, files, x)
  {
    hide ReadAt;
    forall x | IsRead(coding, files, x) ensures x in ReadSet(coding, files) {
      var path :| FoundAt(coding, files, path, x);
    }
    forall x | x in ReadSet(coding, files) ensures IsRead(coding, files, x) {
      var path :| path in files && ReadAt(coding, files, path).Found? && x == ReadAt(coding, files, path).request;
      assert FoundAt(coding, files, path, x);
    }
  }

  /** The requests in the directory of a cluster type; none if it is absent. */
  function RequestsIn(coding: Coding, es: Entries, c: ClusterType): set<Request>
  {
    ReadSet(coding, FilesIn(es, ClusterName(c)))
  }

  /** One cluster type's directory. */
  method NewApplyResultFromDirectory(coding: Coding, v: View, c: ClusterType) returns (r: Option<set<Request>>)
    requires v.Listed?
    ensures r.Some? <==> ReadableCluster(coding, v, c)
    ensures r.Some? ==> r.value == RequestsIn(coding, v.entries, c)
  {
    hide ReadSet, Readable;
    if ClusterName(c) in v.entries && (!v.entries[ClusterName(c)].RequestDirectory? || ClusterName(c) in v.broken) {
      return None;
    }
    var files := FilesIn(v.entries, ClusterName(c));
    var requests := ReadMutationDirectory(coding, files);
    NothingReadable(coding);
    if requests.None? {
      return None;
    }
    ReadSetIsRead(coding, files);
    return Some(set x | x in requests.value);
  }

  lemma NothingReadable(coding: Coding)
    ensures Readable(coding, map[])
  {
  }

  /** An error for any cluster type leaves the configuration nil. */
  method NewApplyConfigurationFromDirectory(coding: Coding, v: View) returns (r: Loaded)
    requires v.Listed?
    ensures MutationsRead(coding, r, v)
  {
    hide ReadableCluster, RequestsIn;
    var loaded: map<ClusterType, set<Request>> := map[];
    var failed := false;
    for i := 0 to |ALL_CLUSTER_TYPES|
      invariant failed <==> exists j :: 0 <= j < i && !ReadableCluster(coding, v, ALL_CLUSTER_TYPES[j])
      invariant !failed ==>
                  forall j :: 0 <= j < i ==>
                    ALL_CLUSTER_TYPES[j] in loaded &&
                      loaded[ALL_CLUSTER_TYPES[j]] == RequestsIn(coding, v.entries, ALL_CLUSTER_TYPES[j])
    {
      var c := ALL_CLUSTER_TYPES[i];
      var requests := NewApplyResultFromDirectory(coding, v, c);
      if requests.None? {
        failed := true;
      } else {
        loaded := loaded[c := requests.value];
      }
    }
    ClusterTypesListed();
    if failed {
      return NilConfiguration;
    }
    forall c: ClusterType
      ensures ReadableCluster(coding, v, c) && c in loaded && loaded[c] == RequestsIn(coding, v.entries, c)
    {
      match c case Configuration => case Management => case UserWorkload =>
    }
    return Loaded(loaded);
  }

  /** Entries are expected to be the logs, the results file, or a cluster type's directory. */
  predicate Unexpected(es: Entries, name: string)
  {
    && name in es
    && name != STDOUT && name != STDERR && name != RESULTS
    && !(es[name].RequestDirectory? && IsClusterName(name))
  }

  /** Entries are expected by their names, and directories by theirs alone. */
  lemma UnexpectedExactly(es: Entries, name: string)
    ensures Unexpected(es, name) <==>
            && name in es
            && name !in ["stdout.log", "stderr.log", "controller-results.yaml"]
            && !(es[name].RequestDirectory? && name in ["Configuration", "Management", "UserWorkload"])
  {
  }

  method CheckEntries(es: Entries) returns (errs: seq<ReadError>)
    ensures forall e :: e in errs <==> e.UnexpectedEntry? && Unexpected(es, e.name)
  {
    errs := [];
    var todo := es.Keys;
    while todo != {}
      invariant todo <= es.Keys
      invariant forall e :: e in errs <==> e.UnexpectedEntry? && e.name !in todo && Unexpected(es, e.name)
    {
      var name :| name in todo;
      todo := todo - {name};
      if name == STDOUT || name == STDERR || name == RESULTS {
        continue;
      }
      if !es[name].RequestDirectory? {
        errs := errs + [UnexpectedEntry(name)];
        continue;
      }
      if !IsClusterName(name) {
        errs := errs + [UnexpectedEntry(name)];
        continue;
      }
    }
  }

  /** The directory itself, exit error aside, is not as expected. */
  ghost predicate Troubled(coding: Coding, v: View)
    requires v.Listed?
  {
    || ReadFails(v, STDOUT) || ReadFails(v, STDERR) || BadResults(v)
    || (exists c: ClusterType :: !ReadableCluster(coding, v, c))
    || (exists n :: Unexpected(v.entries, n))
  }

  /** The errors found in a listable directory, exit error aside. */
  ghost predicate AccountsFor(errs: seq<ReadError>, coding: Coding, v: View)
    requires v.Listed?
  {
    && (errs == [] <==> !Troubled(coding, v))
    && (StdoutUnreadable in errs <==> ReadFails(v, "stdout.log"))
    && (StderrUnreadable in errs <==> ReadFails(v, "stderr.log"))
    && (ResultsUnreadable in errs <==> ReadFails(v, "controller-results.yaml"))
    && (ResultsNotParsed in errs <==> ResultsYielded(v).NotYaml?)
    && (ConfigurationUnreadable in errs <==> exists c: ClusterType :: !ReadableCluster(coding, v, c))
    && (forall n :: UnexpectedEntry(n) in errs <==> Unexpected(v.entries, n))
    && (forall e :: e in errs ==> !e.ExecFailed?)
  }

  /** The mutations of a listable directory: nil if a cluster type's directory cannot be read, else all requests. */
  ghost predicate MutationsRead(coding: Coding, mutations: Loaded, v: View)
    requires v.Listed?
  {
    && (mutations.NilConfiguration? <==> exists c: ClusterType :: !ReadableCluster(coding, v, c))
    && (!mutations.NilConfiguration? ==>
          mutations.Loaded? && forall c: ClusterType ::
            c in mutations.requests && mutations.requests[c] == RequestsIn(coding, v.entries, c))
  }

  /** Everything read from a listable directory before the exec error is looked at. */
  method ReadListed(coding: Coding, v: View) returns (ret: Result, errs: seq<ReadError>)
    requires v.Listed?
    ensures ret.error.None?
    ensures AccountsFor(errs, coding, v)
    ensures MutationsRead(coding, ret.mutations, v)
    ensures ret.controllerResults == ParsedResults(ResultsYielded(v))
    ensures ret.stdout == LogText(v, STDOUT) && ret.stderr == LogText(v, STDERR)
  {
    hide Unexpected, ReadableCluster, ReadFails, ResultsYielded, ParsedResults, RequestsIn, AccountsFor;
    var stdout, stdoutErrs := ReadLog(v, STDOUT, StdoutUnreadable);
    var stderr, stderrErrs := ReadLog(v, STDERR, StderrUnreadable);
    var controllerResults, resultsErrs := ReadResults(v);
    var mutations := NewApplyConfigurationFromDirectory(coding, v);
    var configurationErrs := if mutations.NilConfiguration? then [ConfigurationUnreadable] else [];
    var unexpected := CheckEntries(v.entries);
    ret := Result(stdout, stderr, controllerResults, mutations, None);
    errs := stdoutErrs + stderrErrs + resultsErrs + configurationErrs + unexpected;
    FilesAccount(v, stdoutErrs, stderrErrs, resultsErrs, configurationErrs, mutations.NilConfiguration?);
    PartsAccount(coding, v, stdoutErrs + stderrErrs + resultsErrs + configurationErrs, unexpected);
  }

  /** The errors of the files and of the configuration, exactly. */
  predicate FileErrors(errs: seq<ReadError>, v: View, configurationFails: bool)
    requires v.Listed?
  {
    && (StdoutUnreadable in errs <==> ReadFails(v, STDOUT))
    && (StderrUnreadable in errs <==> ReadFails(v, STDERR))
    && (ResultsUnreadable in errs <==> ReadFails(v, RESULTS))
    && (ResultsNotParsed in errs <==> ResultsYielded(v).NotYaml?)
    && (ConfigurationUnreadable in errs <==> configurationFails)
  }

  lemma InFour<T>(a: seq<T>, b: seq<T>, c: seq<T>, d: seq<T>, x: T)
    ensures x in a + b + c + d <==> x in a || x in b || x in c || x in d
  {
  }

  lemma FilesAccount(
    v: View, stdoutErrs: seq<ReadError>, stderrErrs: seq<ReadError>, resultsErrs: seq<ReadError>,
    configurationErrs: seq<ReadError>, configurationFails: bool)
    requires v.Listed?
    requires stdoutErrs == if ReadFails(v, STDOUT) then [StdoutUnreadable] else []
    requires stderrErrs == if ReadFails(v, STDERR) then [StderrUnreadable] else []
    requires resultsErrs == (if ReadFails(v, RESULTS) then [ResultsUnreadable] else []) +
                            (if ResultsYielded(v).NotYaml? then [ResultsNotParsed] else [])
    requires configurationErrs == if configurationFails then [ConfigurationUnreadable] else []
    ensures
      var errs := stdoutErrs + stderrErrs + resultsErrs + configurationErrs;
      && FileErrors(errs, v, configurationFails)
      && (forall e :: e in errs ==> !e.UnexpectedEntry? && !e.ExecFailed?)
  {
    hide ReadFails, ResultsYielded;
    forall e ensures e in stdoutErrs + stderrErrs + resultsErrs + configurationErrs <==>
                     e in stdoutErrs || e in stderrErrs || e in resultsErrs || e in configurationErrs
    {
      InFour(stdoutErrs, stderrErrs, resultsErrs, configurationErrs, e);
    }
  }

  lemma PartsAccount(coding: Coding, v: View, errs: seq<ReadError>, unexpected: seq<ReadError>)
    requires v.Listed?
    requires FileErrors(errs, v, exists c: ClusterType :: !ReadableCluster(coding, v, c))
    requires forall e :: e in errs ==> !e.UnexpectedEntry? && !e.ExecFailed?
    requires forall e :: e in unexpected <==> e.UnexpectedEntry? && Unexpected(v.entries, e.name)
    ensures AccountsFor(errs + unexpected, coding, v)
  {
    hide Unexpected, ReadableCluster, ReadFails, ResultsYielded;
    var all := errs + unexpected;
    assert forall e :: e in all <==> e in errs || e in unexpected;
    if all != [] { assert all[0] in all; }
    if n :| Unexpected(v.entries, n) { assert UnexpectedEntry(n) in unexpected; }
  }

  /** The exec error comes behind the errors found. */
  predicate Joins(all: seq<ReadError>, errs: seq<ReadError>, execError: Option<ExecError>)
  {
    match execError
    case None => all == errs
    case Some(e) => |all| == |errs| + 1 && all[..|errs|] == errs && all[|errs|] == ExecFailed(e)
  }

  /** What is returned for a listable directory: something wrong with it makes the result's own error and the returned
      one, joined with the exec error; an exec error alone is returned beside a result without error. */
  ghost predicate ReturnsFor(
    coding: Coding, v: View, execError: Option<ExecError>, result: Result, failure: Option<Failure>)
    requires v.Listed?
  {
    if Troubled(coding, v)
    then exists errs :: AccountsFor(errs, coding, v) && errs != []
                        && failure.Some? && failure.value.Joined? && result.error == Some(failure.value.errs)
                        && Joins(failure.value.errs, errs, execError)
    else result.error.None? && failure == if execError.Some? then Some(Exec(execError.value)) else None
  }

  /** What is returned for a directory and an exec error. Without a listable directory there is a result only for a
      failed exec and an absent directory. */
  ghost predicate ReadAs(
    coding: Coding, v: View, execError: Option<ExecError>, result: Option<Result>, failure: Option<Failure>)
  {
    match v
    case Absent =>
      if execError.Some?
      then result == Some(Result("", "", None, NeverBuilt, None)) && failure == Some(Exec(execError.value))
      else result.None? && failure == Some(CannotList)
    case Unlistable => result.None? && failure == Some(CannotList)
    case Listed(_, _) =>
      && result.Some?
      && ReturnsFor(coding, v, execError, result.value, failure)
      && MutationsRead(coding, result.value.mutations, v)
      && result.value.controllerResults == ParsedResults(ResultsYielded(v))
      && result.value.stdout == LogText(v, STDOUT) && result.value.stderr == LogText(v, STDERR)
  }

  /** Output read without an exec error and without failure has loaded mutations and no error of its own. */
  method NewApplyConfigurationResultFromDirectory(coding: Coding, v: View, execError: Option<ExecError>)
    returns (result: Option<Result>, failure: Option<Failure>)
    ensures ReadAs(coding, v, execError, result, failure)
    ensures execError.None? && failure.None? ==>
              result.Some? && result.value.error.None? && result.value.mutations.Loaded?
  {
    match v {
      case Absent =>
        if execError.Some? {
          return Some(Result("", "", None, NeverBuilt, None)), Some(Exec(execError.value));
        }
        return None, Some(CannotList);
      case Unlistable =>
        return None, Some(CannotList);
      case Listed(_, _) =>
        var ret, errs := ReadListed(coding, v);
        if |errs| == 0 && execError.Some? {
          return Some(ret), Some(Exec(execError.value));
        }
        ghost var found := errs;
        if |errs| > 0 && execError.Some? {
          errs := errs + [ExecFailed(execError.value)];
        }
        if |errs| > 0 {
          assert Joins(errs, found, execError);
          return Some(ret.(error := Some(errs))), Some(Joined(errs));
        }
        return Some(ret), None;
    }
  }

  /** The round trip of the results: read back from the output directory, the results are those the run was given,
      field by field, and the very same exactly if there are any and none has an empty list of errors. */
  lemma ResultsRoundTrip(
    io: Io, before: Entries, b: Batches, results: Option<ApplyConfigurationRunResult>, v: View,
    execError: Option<ExecError>, actual: Result, failure: Option<Failure>)
    requires io.marshalOk && io.resultsOk
    requires v.Listed? && v.entries == OutputOf(io, before, b, results) && "controller-results.yaml" !in v.broken
    requires ReadAs(io.coding, v, execError, Some(actual), failure)
    ensures ReadBackAs(results, actual.controllerResults)
    ensures actual.controllerResults == results <==> Writable(results)
  {
    hide OutputOf, ReadBackAs, Marshalled, ParsedResults, ReturnsFor, MutationsRead, LogText, AfterWrites, ClusterName,
      Writable;
    OutputEntries(io, before, b, results);
    assert ResultsYielded(v) == Results(Marshalled(results));
    MarshalledReadsBack(results);
    UnchangedExactly(results, actual.controllerResults);
  }

  /** A directory holding at most the two logs. */
  predicate OnlyLogs(es: Entries)
  {
    forall n :: n in es ==> (n == STDOUT || n == STDERR) && es[n].TextFile?
  }

  /** A run in a directory holding at most the logs, all of whose writes were completed, but perhaps those of the
      unspecified requests. */
  ghost predicate WroteTheRest(
    before: Entries, after: Entries, io: Io, b: Batches, results: Option<ApplyConfigurationRunResult>)
  {
    && OnlyLogs(before)
    && io.marshalOk && io.resultsOk
    && (forall c: ClusterType :: AllWhole(io, ClusterName(c), BatchFor(b, c)))
    && after == OutputOf(io, before, b, results)
  }

  /** The run leaves a directory of unspecified requests behind, complete or not. */
  predicate LeavesUnspecified(io: Io, b: Batches)
  {
    SomeBegun(io, UNSPECIFIED, b.unspecified)
  }

  /** Only a run that produced something unspecified leaves such a directory, and it does if it can begin to write. */
  lemma LeftExactly(io: Io, m: Mutations, allowed: OutputResources, b: Batches)
    requires AllFiled(m) && AreBatches(m, allowed, b)
    ensures LeavesUnspecified(io, b) ==> ProducesUnspecified(m, allowed)
    ensures ProducesUnspecified(m, allowed) && AllWhole(io, UNSPECIFIED, b.unspecified) ==> LeavesUnspecified(io, b)
  {
    hide Total, Specified, Gathers, IsBatch;
    UnspecifiedElements(m, allowed, b.unspecified);
    if i :| 0 <= i < |b.unspecified| && Begun(io.request(UNSPECIFIED, i)) {
      assert UnspecifiedOf(m, allowed)(b.unspecified[i]);
    }
    if x :| Total(m, x) > 0 && !Specified(allowed, x) {
      assert UnspecifiedOf(m, allowed)(x);
      assert b.unspecified[0] in b.unspecified;
    }
  }

  /** The files that the run wrote for the cluster type. */
  function WrittenFor(io: Io, b: Batches, c: ClusterType): map<string, string>
  {
    FilesOf(io.coding, BatchFor(b, c))
  }

  /** Write/read agreement. Reading the directory back finds something wrong exactly when the run left a directory of
      unspecified requests or some cluster type's files cannot be read; it finds the results as they were marshalled,
      and for each cluster type what its files read as. */
  lemma WriteReadAgreement(
    before: Entries, after: Entries, io: Io, b: Batches, results: Option<ApplyConfigurationRunResult>, v: View)
    requires WroteTheRest(before, after, io, b, results) && v == Listed(after, map[])
    ensures Troubled(io.coding, v) <==>
            LeavesUnspecified(io, b) || exists c: ClusterType :: !Readable(io.coding, WrittenFor(io, b, c))
    ensures forall n :: Unexpected(after, n) <==> n == UNSPECIFIED && LeavesUnspecified(io, b)
    ensures ReadBackAs(results, ParsedResults(ResultsYielded(v))) && !BadResults(v)
    ensures forall c: ClusterType :: ReadableCluster(io.coding, v, c) <==> Readable(io.coding, WrittenFor(io, b, c))
    ensures forall c: ClusterType ::
              RequestsIn(io.coding, after, c) == ReadSet(io.coding, WrittenFor(io, b, c))
  {
    hide Marshalled, AllWhole, OutputOf, ReadSet, Readable, FilesOf, LeavesUnspecified, ClusterName, OnlyLogs,
      Unexpected, ReadBackAs,
      ParsedResults;
    MarshalledReadsBack(results);
    OutputEntries(io, before, b, results);
    NamesApart(Configuration);
    forall c: ClusterType
      ensures ReadableCluster(io.coding, v, c) <==> Readable(io.coding, WrittenFor(io, b, c))
      ensures RequestsIn(io.coding, after, c) == ReadSet(io.coding, WrittenFor(io, b, c))
    {
      ClusterWritten(before, after, io, b, results, c);
      NothingReadable(io.coding);
    }
    forall n ensures Unexpected(after, n) <==> n == UNSPECIFIED && LeavesUnspecified(io, b) {
      EntryExpected(before, after, io, b, results, n);
    }
    LogsKept(before, after, io, b, results);
    if LeavesUnspecified(io, b) { assert Unexpected(after, UNSPECIFIED); }
  }

  lemma LogsKept(
    before: Entries, after: Entries, io: Io, b: Batches, results: Option<ApplyConfigurationRunResult>)
    requires WroteTheRest(before, after, io, b, results)
    ensures !ReadFails(Listed(after, map[]), STDOUT) && !ReadFails(Listed(after, map[]), STDERR)
  {
    hide Marshalled, AllWhole, OutputOf, ClusterName, IsClusterName;
    OutputEntries(io, before, b, results);
    NamesApart(Configuration);
    assert SameEntry(before, after, STDOUT) && SameEntry(before, after, STDERR);
  }

  /** A cluster type's directory holds the files of its batch, and is absent for none. */
  lemma ClusterWritten(
    before: Entries, after: Entries, io: Io, b: Batches, results: Option<ApplyConfigurationRunResult>, c: ClusterType)
    requires WroteTheRest(before, after, io, b, results)
    ensures ClusterName(c) in after ==> after[ClusterName(c)].RequestDirectory?
    ensures FilesIn(after, ClusterName(c)) == WrittenFor(io, b, c)
  {
    hide Marshalled, AllWhole, OutputOf, ClusterName, Puts, AfterWrite;
    NamesApart(c);
    OutputEntries(io, before, b, results);
    var xs := BatchFor(b, c);
    assert SameEntry(AfterWrites(io, ClusterName(c), before, xs), after, ClusterName(c));
    assert ClusterName(c) !in before;
    if xs != [] { AfterWholeWrites(io, ClusterName(c), before, xs); }
  }

  lemma EntryExpected(
    before: Entries, after: Entries, io: Io, b: Batches, results: Option<ApplyConfigurationRunResult>, n: string)
    requires WroteTheRest(before, after, io, b, results)
    ensures Unexpected(after, n) <==> n == UNSPECIFIED && LeavesUnspecified(io, b)
  {
    hide ClusterName, Marshalled, AllWhole, OutputOf, SomeBegun, AfterWrites;
    NamesApart(Configuration);
    OutputEntries(io, before, b, results);
    if IsClusterName(n) {
      var c := if n == "Configuration" then Configuration else if n == "Management" then Management else UserWorkload;
      NamedCluster(c, n);
      ClusterWritten(before, after, io, b, results, c);
    } else if n == UNSPECIFIED {
      AfterWritesEntries(io, UNSPECIFIED, before, b.unspecified);
    } else if n != RESULTS {
      assert SameEntry(before, after, n);
    }
  }

  lemma NamedCluster(c: ClusterType, n: string)
    requires n == match c
                  case Configuration => "Configuration"
                  case Management => "Management"
                  case UserWorkload => "UserWorkload"
    ensures ClusterName(c) == n && n != STDOUT && n != STDERR
  {
    NamesApart(c);
  }

  /** The requests that a run wrote for the cluster type can be read back, in whatever company. */
  ghost predicate NoConflictIn(coding: Coding, b: Batches, c: ClusterType)
  {
    AllPlain(Elements(BatchFor(b, c))) && NoConflict(coding, Elements(BatchFor(b, c)))
  }

  /** Where what was written conflicts in no way, each cluster type's directory reads as exactly that. */
  lemma BatchReadBack(coding: Coding, b: Batches, c: ClusterType)
    requires Sound(coding) && NoConflictIn(coding, b, c)
    ensures Readable(coding, FilesOf(coding, BatchFor(b, c)))
    ensures forall x :: x in ReadSet(coding, FilesOf(coding, BatchFor(b, c))) <==> x in BatchFor(b, c)
  {
    hide FilesOf, NoConflict, Readable, FoundAt, ReadSet, IsRead;
    ConflictFreeReadsBack(coding, BatchFor(b, c));
    ReadSetIsRead(coding, FilesOf(coding, BatchFor(b, c)));
  }

  /** Each cluster type's directory then reads as exactly the produced requests that its own list allows. */
  lemma AllowedReadBack(coding: Coding, m: Mutations, allowed: OutputResources, b: Batches, c: ClusterType)
    requires AllFiled(m) && AreBatches(m, allowed, b)
    requires Sound(coding) && NoConflictIn(coding, b, c)
    ensures Readable(coding, FilesOf(coding, BatchFor(b, c)))
    ensures forall x :: x in ReadSet(coding, FilesOf(coding, BatchFor(b, c))) <==> AllowedIn(m, allowed, c)(x)
  {
    hide FilesOf, AllowedIn, Gathers, IsBatch, NoConflictIn, Readable, ReadSet;
    BatchReadBack(coding, b, c);
    BatchElements(m, allowed, c, BatchFor(b, c));
  }
}
