/** options.go: one apply-configuration run. */
module ApplyConfiguration {
  import opened Seqs
  import opened Kube
  import opened Controllers
  import opened Requests
  import opened AllowList
  import opened Unspecified
  import opened MutationFiles
  import opened OutputFiles

  datatype RunError =
    | CannotCreateDirectory
    | OutputResourcesFailed
    | ApplyFailed
    | InvalidMutations(error: ValidationError)
    | InvalidFilteredMutations(error: ValidationError)
    | RequestsNotWritten
    | UnspecifiedNotWritten
    | ResultsNotMarshalled
    | ResultsNotWritten

  datatype RunResult = Crashed | Exited(errs: seq<RunError>)

  /** What the operator's functions returned, nil and error included. */
  datatype Produced = Produced(
    allowed: Option<OutputResources>, allowedFailed: bool,
    results: Option<ApplyConfigurationRunResult>, mutations: Option<Mutations>, applyFailed: bool)

  /** Some produced request is specified by no cluster type. */
  ghost predicate ProducesUnspecified(m: Mutations, allowed: OutputResources)
  {
    exists x :: Total(m, x) > 0 && !Specified(allowed, x)
  }

  /** What the code dereferences: the allow list, the mutations, and a getter for every cluster type. */
  ghost predicate Dereferenceable(p: Produced)
  {
    && p.allowed.Some?
    && p.mutations.Some?
    && !Broken(p.mutations.value)
    && forall c: ClusterType :: c in p.mutations.value
  }

  /** The produced requests that the cluster type's own list allows. */
  function AllowedIn(m: Mutations, allowed: OutputResources, c: ClusterType): Request -> bool
  {
    (x: Request) => CountIn(m, c, x) > 0 && Allows(ListFor(allowed, c), x.metadata)
  }

  /** The produced requests that no list allows. */
  ghost function UnspecifiedOf(m: Mutations, allowed: OutputResources): Request -> bool
  {
    (x: Request) => Total(m, x) > 0 && !Specified(allowed, x)
  }

  /** The requests a run writes to each directory, in the order in which it writes them. */
  datatype Batches = Batches(
    configuration: seq<Request>, management: seq<Request>, userWorkload: seq<Request>, unspecified: seq<Request>)

  function BatchFor(b: Batches, c: ClusterType): seq<Request>
  {
    match c
    case Configuration => b.configuration
    case Management => b.management
    case UserWorkload => b.userWorkload
  }

  /** What the mutations of a cluster type show of the list, action by action in some order of the actions. */
  ghost predicate IsBatch(m: Mutations, allowed: OutputResources, c: ClusterType, xs: seq<Request>)
  {
    c in m && Shown(m[c]).Some? && ListsAll(FilterTracked(Shown(m[c]).value, Some(ListFor(allowed, c))), xs)
  }

  /** Each cluster type's batch is what its own list allows; the unspecified batch is what the combined list does
      not. */
  ghost predicate AreBatches(m: Mutations, allowed: OutputResources, b: Batches)
  {
    && (forall c: ClusterType :: IsBatch(m, allowed, c, BatchFor(b, c)))
    && exists all :: Gathers(m, all) && b.unspecified == Filter(all, NotAllowed(allowed))
  }

  function AfterClusters(io: Io, es: Entries, b: Batches): Entries
  {
    AfterWrites(
      io, ClusterName(UserWorkload),
      AfterWrites(
        io, ClusterName(Management), AfterWrites(io, ClusterName(Configuration), es, b.configuration), b.management),
      b.userWorkload)
  }

  function AfterResults(io: Io, es: Entries, results: Option<ApplyConfigurationRunResult>): Entries
  {
    if io.marshalOk && io.resultsOk then es[RESULTS := ResultsFile(Results(Marshalled(results)))] else es
  }

  /** The output directory after a run: every cluster type's batch in its own directory, the unspecified one in
      "Unspecified", and the results, each as far as it could be written. */
  function OutputOf(io: Io, es: Entries, b: Batches, results: Option<ApplyConfigurationRunResult>): Entries
  {
    AfterResults(io, AfterWrites(io, UNSPECIFIED, AfterClusters(io, es, b), b.unspecified), results)
  }

  /** Each directory depends on its own batch alone, the results file on the results, and nothing else changes. */
  lemma OutputEntries(io: Io, es: Entries, b: Batches, results: Option<ApplyConfigurationRunResult>)
    ensures
      var out := OutputOf(io, es, b, results);
      && (forall c: ClusterType ::
            SameEntry(AfterWrites(io, ClusterName(c), es, BatchFor(b, c)), out, ClusterName(c)))
      && SameEntry(AfterWrites(io, UNSPECIFIED, es, b.unspecified), out, UNSPECIFIED)
      && (if io.marshalOk && io.resultsOk
          then RESULTS in out && out[RESULTS] == ResultsFile(Results(Marshalled(results)))
          else SameEntry(es, out, RESULTS))
      && (forall n :: !IsClusterName(n) && n != UNSPECIFIED && n != RESULTS ==> SameEntry(es, out, n))
  {
    hide AfterWrites, Marshalled, IsClusterName;
    var one := AfterWrites(io, ClusterName(Configuration), es, b.configuration);
    var two := AfterWrites(io, ClusterName(Management), one, b.management);
    var three := AfterClusters(io, es, b);
    var four := AfterWrites(io, UNSPECIFIED, three, b.unspecified);
    var out := OutputOf(io, es, b, results);
    EntriesKept(io, ClusterName(Configuration), es, b.configuration);
    EntriesKept(io, ClusterName(Management), one, b.management);
    EntriesKept(io, ClusterName(UserWorkload), two, b.userWorkload);
    EntriesKept(io, UNSPECIFIED, three, b.unspecified);
    EntriesApart();
    forall n | n != RESULTS ensures SameEntry(four, out, n) {}
    forall n | !IsClusterName(n) ensures SameEntry(es, three, n) {
      ClusterNamed(n);
      assert SameEntry(es, one, n) && SameEntry(one, two, n) && SameEntry(two, three, n);
    }
    assert SameEntry(one, two, ClusterName(Configuration)) && SameEntry(two, three, ClusterName(Configuration));
    assert SameEntry(es, one, ClusterName(Management)) && SameEntry(two, three, ClusterName(Management));
    assert SameEntry(es, one, ClusterName(UserWorkload)) && SameEntry(one, two, ClusterName(UserWorkload));
    AfterWritesLocal(io, ClusterName(Management), es, one, b.management);
    AfterWritesLocal(io, ClusterName(UserWorkload), es, two, b.userWorkload);
    AfterWritesLocal(io, UNSPECIFIED, es, three, b.unspecified);
    forall c: ClusterType ensures SameEntry(AfterWrites(io, ClusterName(c), es, BatchFor(b, c)), out, ClusterName(c)) {
      assert SameEntry(three, four, ClusterName(c)) && SameEntry(four, out, ClusterName(c));
      match c case Configuration => case Management => case UserWorkload =>
    }
    assert SameEntry(es, three, RESULTS) && SameEntry(three, four, RESULTS);
    forall n | !IsClusterName(n) && n != UNSPECIFIED && n != RESULTS ensures SameEntry(es, out, n) {
      assert SameEntry(es, three, n) && SameEntry(three, four, n) && SameEntry(four, out, n);
    }
  }

  const LAYOUT := ["Configuration", "Management", "UserWorkload", "Unspecified", "controller-results.yaml"]

  /** The layout of the output directory, name by name. */
  lemma OutputLayout(io: Io, es: Entries, b: Batches, results: Option<ApplyConfigurationRunResult>)
    ensures
      var out := OutputOf(io, es, b, results);
      && SameEntry(AfterWrites(io, "Configuration", es, b.configuration), out, "Configuration")
      && SameEntry(AfterWrites(io, "Management", es, b.management), out, "Management")
      && SameEntry(AfterWrites(io, "UserWorkload", es, b.userWorkload), out, "UserWorkload")
      && SameEntry(AfterWrites(io, "Unspecified", es, b.unspecified), out, "Unspecified")
      && (forall n :: n !in LAYOUT ==> SameEntry(es, out, n))
  {
    hide AfterWrites, OutputOf, SameEntry;
    OutputEntries(io, es, b, results);
    assert ClusterName(Configuration) == "Configuration" && ClusterName(Management) == "Management";
    assert BatchFor(b, Configuration) == b.configuration && BatchFor(b, Management) == b.management;
    assert BatchFor(b, UserWorkload) == b.userWorkload;
  }

  lemma EntriesKept(io: Io, name: string, es: Entries, xs: seq<Request>)
    ensures forall n :: n != name ==> SameEntry(es, AfterWrites(io, name, es, xs), n)
  {
    AfterWritesEntries(io, name, es, xs);
  }

  lemma EntriesApart()
    ensures forall c: ClusterType :: ClusterName(c) != UNSPECIFIED && ClusterName(c) != RESULTS
    ensures UNSPECIFIED != RESULTS && !IsClusterName(UNSPECIFIED) && !IsClusterName(RESULTS)
    ensures forall c: ClusterType, d: ClusterType :: ClusterName(c) == ClusterName(d) ==> c == d
  {
    forall c: ClusterType ensures ClusterName(c) != UNSPECIFIED && ClusterName(c) != RESULTS { NamesApart(c); }
    NamesApart(Configuration);
    forall c: ClusterType, d: ClusterType ensures ClusterName(c) == ClusterName(d) ==>
      c == d { ClusterNamesDiffer(c, d); }
  }

  lemma ClusterNamed(n: string)
    requires !IsClusterName(n)
    ensures forall c: ClusterType :: ClusterName(c) != n
  {
    forall c: ClusterType ensures ClusterName(c) != n { ClusterNamesDiffer(c, c); }
  }

  lemma ClusterNamesDiffer(a: ClusterType, b: ClusterType)
    ensures ClusterName(a) == ClusterName(b) <==> a == b
    ensures IsClusterName(ClusterName(a))
  {
    assert "Configuration"[0] == 'C' && "Management"[0] == 'M' && "UserWorkload"[0] == 'U';
  }

  lemma NamesApart(c: ClusterType)
    ensures ClusterName(c) != UNSPECIFIED && ClusterName(c) != RESULTS && UNSPECIFIED != RESULTS
    ensures !IsClusterName(UNSPECIFIED) && !IsClusterName(RESULTS) && !IsClusterName(STDOUT) && !IsClusterName(STDERR)
    ensures UNSPECIFIED != STDOUT && UNSPECIFIED != STDERR && RESULTS != STDOUT && RESULTS != STDERR
    ensures ClusterName(c) != STDOUT && ClusterName(c) != STDERR
  {
    assert UNSPECIFIED[0] == 'U' && UNSPECIFIED[1] == 'n' && RESULTS[0] == 'c' && STDOUT[0] == 's' && STDERR[0] == 's';
    assert "Configuration"[0] == 'C' && "Management"[0] == 'M' && "UserWorkload"[1] == 's';
  }

  /** A batch holds the produced requests that the cluster type's own list allows. */
  lemma BatchElements(m: Mutations, allowed: OutputResources, c: ClusterType, xs: seq<Request>)
    requires AllFiled(m) && IsBatch(m, allowed, c, xs)
    ensures forall x :: x in xs <==> AllowedIn(m, allowed, c)(x)
  {
    hide Count, ListsAll, FilterTracked, Allows;
    var t, l := Shown(m[c]).value, Some(ListFor(allowed, c));
    forall x ensures x in xs <==> AllowedIn(m, allowed, c)(x) {
      FilteredCount(t, l, x);
      AllRequestsCount(FilterTracked(t, l), xs);
    }
  }

  /** The unspecified batch holds the produced requests that no list allows. */
  lemma UnspecifiedElements(m: Mutations, allowed: OutputResources, xs: seq<Request>)
    requires AllFiled(m)
    requires exists all :: Gathers(m, all) && xs == Filter(all, NotAllowed(allowed))
    ensures forall x :: x in xs <==> UnspecifiedOf(m, allowed)(x)
  {
    hide Total, AllowedBy, Combine, AllFiled, ListedUpTo, Flat, Allows;
    var all :| Gathers(m, all) && xs == Filter(all, NotAllowed(allowed));
    var parts :| |parts| == 3 && ListedUpTo(m, parts) && all == Flat(parts);
    ListedAll(m, parts);
    FilterIn(all, NotAllowed(allowed));
    forall x ensures x in xs <==> UnspecifiedOf(m, allowed)(x) {
      NotAllowedExactly(allowed, x);
      assert x in all <==> x in multiset(all);
    }
  }

  lemma NotAllowedExactly(allowed: OutputResources, x: Request)
    ensures NotAllowed(allowed)(x) <==> !Specified(allowed, x)
  {
    CombineAllows(allowed, x.metadata);
  }

  /** What goes where: the produced requests that a cluster type's list allows are the batch of that cluster type, and
      those that none of the three allows are the unspecified batch. */
  lemma BatchesExactly(m: Mutations, allowed: OutputResources, b: Batches, x: Request)
    requires AllFiled(m) && AreBatches(m, allowed, b)
    ensures x in b.configuration <==> CountIn(m, Configuration, x) > 0 && Allows(allowed.configuration, x.metadata)
    ensures x in b.management <==> CountIn(m, Management, x) > 0 && Allows(allowed.management, x.metadata)
    ensures x in b.userWorkload <==> CountIn(m, UserWorkload, x) > 0 && Allows(allowed.userWorkload, x.metadata)
    ensures x in b.unspecified <==>
            && (exists c: ClusterType :: CountIn(m, c, x) > 0)
            && !Allows(allowed.configuration, x.metadata) && !Allows(allowed.management, x.metadata)
            && !Allows(allowed.userWorkload, x.metadata)
  {
    hide Gathers, IsBatch, CountIn, Allows, AllFiled, NotAllowed;
    assert BatchFor(b, Configuration) == b.configuration && BatchFor(b, Management) == b.management;
    assert BatchFor(b, UserWorkload) == b.userWorkload;
    BatchElements(m, allowed, Configuration, b.configuration);
    BatchElements(m, allowed, Management, b.management);
    BatchElements(m, allowed, UserWorkload, b.userWorkload);
    UnspecifiedElements(m, allowed, b.unspecified);
    assert AllowedIn(m, allowed, Configuration)(x) <==> x in b.configuration;
    assert UnspecifiedOf(m, allowed)(x) <==> x in b.unspecified;
    SomewhereCounted(m, x);
  }

  lemma SomewhereCounted(m: Mutations, x: Request)
    ensures Total(m, x) > 0 <==> exists c: ClusterType :: CountIn(m, c, x) > 0
  {
    hide CountIn;
    if c: ClusterType :| CountIn(m, c, x) > 0 {
      match c case Configuration => case Management => case UserWorkload =>
    }
  }

  /** What `WriteApplyConfiguration` has written after the first `n` cluster types. */
  function AfterFirst(io: Io, es: Entries, parts: seq<seq<Request>>): Entries
    requires |parts| <= |ALL_CLUSTER_TYPES|
  {
    if parts == [] then es
    else
      var n := |parts| - 1;
      AfterWrites(io, ClusterName(ALL_CLUSTER_TYPES[n]), AfterFirst(io, es, parts[..n]), parts[n])
  }

  ghost predicate ShownIn(f: Mutations, c: ClusterType, xs: seq<Request>)
  {
    c in f && Shown(f[c]).Some? && ListsAll(Shown(f[c]).value, xs)
  }

  /** `WriteApplyConfiguration`: the requests of every cluster type into its own directory; a failure does not stop
      it. */
  method WriteApplyConfiguration(dir: OutputDirectory, io: Io, f: Mutations)
    returns (ok: bool, ghost parts: seq<seq<Request>>)
    requires !Broken(f) && forall c: ClusterType :: c in f
    modifies dir
    ensures |parts| == 3 && forall i :: 0 <= i < 3 ==> ShownIn(f, ALL_CLUSTER_TYPES[i], parts[i])
    ensures dir.entries == AfterFirst(io, old(dir.entries), parts)
    ensures ok <==> forall i :: 0 <= i < 3 ==> AllWhole(io, ClusterName(ALL_CLUSTER_TYPES[i]), parts[i])
  {
    hide AfterWrites, AllWhole, ClusterName, ListsAll;
    ok, parts := true, [];
    for i := 0 to |ALL_CLUSTER_TYPES|
      invariant |parts| == i && forall j :: 0 <= j < i ==> ShownIn(f, ALL_CLUSTER_TYPES[j], parts[j])
      invariant dir.entries == AfterFirst(io, old(dir.entries), parts)
      invariant ok <==> forall j :: 0 <= j < i ==> AllWhole(io, ClusterName(ALL_CLUSTER_TYPES[j]), parts[j])
    {
      var c := ALL_CLUSTER_TYPES[i];
      assert Shown(f[c]).Some?;
      var all := AllRequestsOf(f[c]);
      var written := dir.WriteMutations(io, ClusterName(c), all.value);
      assert (parts + [all.value])[..i] == parts;
      parts := parts + [all.value];
      ok := ok && written;
    }
  }

  /** The three directories, one after the other. */
  lemma ClustersAfterFirst(io: Io, es: Entries, parts: seq<seq<Request>>, unspecified: seq<Request>)
    requires |parts| == 3
    ensures AfterFirst(io, es, parts) == AfterClusters(io, es, Batches(parts[0], parts[1], parts[2], unspecified))
  {
    hide AfterWrites, ClusterName;
    ClusterTypesListed();
    assert parts[..2][..1] == parts[..1] && parts[..1][..0] == [];
    assert AfterFirst(io, es, []) == es;
    assert AfterFirst(io, es, parts[..1]) == AfterWrites(io, ClusterName(Configuration), es, parts[0]);
    assert AfterFirst(io, es, parts[..2]) ==
           AfterWrites(io, ClusterName(Management), AfterFirst(io, es, parts[..1]), parts[1]);
  }

  /** What the filtered getters show are the batches. */
  lemma ShownAreBatches(
    m: Mutations, f: Mutations, allowed: OutputResources, parts: seq<seq<Request>>, unspecified: seq<Request>)
    requires IsFilterOf(f, m, Some(allowed)) && !Broken(f) && |parts| == 3
    requires forall i :: 0 <= i < 3 ==> ShownIn(f, ALL_CLUSTER_TYPES[i], parts[i])
    requires exists all :: Gathers(m, all) && unspecified == Filter(all, NotAllowed(allowed))
    ensures AreBatches(m, allowed, Batches(parts[0], parts[1], parts[2], unspecified))
  {
    hide Gathers, NotAllowed, ListsAll, FilterTracked;
    ClusterTypesListed();
    var b := Batches(parts[0], parts[1], parts[2], unspecified);
    assert ShownIn(f, Configuration, parts[0]) && ShownIn(f, Management, parts[1]) &&
      ShownIn(f, UserWorkload, parts[2]);
    forall c: ClusterType ensures IsBatch(m, allowed, c, BatchFor(b, c)) {
      assert ShownIn(f, c, BatchFor(b, c)) by {
        match c case Configuration => case Management => case UserWorkload =>
      }
      assert f[c] == Filtering(Nullable(m, c), Some(ListFor(allowed, c)));
    }
  }

  /** The validation of the filtered mutations. */
  method CheckFiltered(f: Mutations, allowed: Option<OutputResources>) returns (r: Attempt<seq<RunError>>)
    requires AllFiled(f)
    ensures r.Panicked? <==> Broken(f) || allowed.None?
    ensures r.Done? ==> (r.value == [] <==> forall x :: Total(f, x) > 0 ==> Specified(allowed.value, x))
  {
    var filtered := ValidateAllDesiredMutationsGetter(Some(f), allowed);
    if filtered.Panicked? {
      return Attempt.Panicked;
    }
    return Done(if filtered.value.Some? then [InvalidFilteredMutations(filtered.value.value)] else []);
  }

  /** The write errors of a run, exactly. */
  ghost predicate WritesReported(errs: seq<RunError>, io: Io, b: Batches)
  {
    && (RequestsNotWritten !in errs <==> forall c: ClusterType :: AllWhole(io, ClusterName(c), BatchFor(b, c)))
    && (UnspecifiedNotWritten !in errs <==> AllWhole(io, UNSPECIFIED, b.unspecified))
    && (ResultsNotMarshalled in errs <==> !io.marshalOk)
    && (ResultsNotWritten in errs <==> io.marshalOk && !io.resultsOk)
  }

  /** What a run that does not panic reports, exactly. The filtered mutations are never found invalid. */
  ghost predicate ReportsExactly(errs: seq<RunError>, io: Io, p: Produced, b: Batches)
    requires Dereferenceable(p)
  {
    && CannotCreateDirectory !in errs
    && (OutputResourcesFailed in errs <==> p.allowedFailed)
    && (ApplyFailed in errs <==> p.applyFailed)
    && ((exists e :: InvalidMutations(e) in errs) <==> ProducesUnspecified(p.mutations.value, p.allowed.value))
    && (forall e :: e in errs ==> !e.InvalidFilteredMutations?)
    && WritesReported(errs, io, b)
  }

  /** One run. It ends in a panic, before anything is written, exactly when the allow list, the mutations or a cluster
      type's getter is nil; the validation that would report nil mutations comes too late. Otherwise it writes what the
      lists allow and what none allows, and reports exactly what went wrong. */
  method Run(dir: OutputDirectory, io: Io, p: Produced) returns (r: RunResult, ghost b: Batches)
    requires p.mutations.Some? ==> AllFiled(p.mutations.value)
    modifies dir
    ensures !io.mkdirOk ==> r == Exited([CannotCreateDirectory])
    ensures io.mkdirOk ==> (r.Crashed? <==> !Dereferenceable(p))
    ensures !io.mkdirOk || r.Crashed? ==> dir.entries == old(dir.entries)
    ensures io.mkdirOk && r.Exited? ==>
              && AreBatches(p.mutations.value, p.allowed.value, b)
              && dir.entries == OutputOf(io, old(dir.entries), b, p.results)
              && ReportsExactly(r.errs, io, p, b)
  {
    hide ProducesUnspecified, Broken, AllFiled, WritesReported, ReportsExactly, AreBatches, OutputOf, Gathers,
      NotAllowed,
      IsFilterOf;
    b := Batches([], [], [], []);
    if !io.mkdirOk {
      return Exited([CannotCreateDirectory]), b;
    }
    var errs: seq<RunError> := [];
    if p.allowedFailed {
      errs := errs + [OutputResourcesFailed];
    }
    if p.applyFailed {
      errs := errs + [ApplyFailed];
    }
    if p.mutations.None? {
      return Crashed, b;
    }
    var m := p.mutations.value;
    var checked := CheckMutations(m, p.allowed);
    if checked.Panicked? {
      return Crashed, b;
    }
    errs := errs + checked.value.errs;
    var writeErrs;
    writeErrs, b := WriteOutput(dir, io, checked.value.filtered, checked.value.unspecified, p.results, m,
      p.allowed.value);
    ReportAssembled(errs, checked.value.errs, writeErrs, io, p, b);
    errs := errs + writeErrs;
    return Exited(errs), b;
  }

  /** The filtered mutations, the unspecified requests, and what the validations report. */
  datatype Checked = Checked(filtered: Mutations, unspecified: seq<Request>, errs: seq<RunError>)

  /** The validating part of a run: of the raw mutations, and of the filtered ones, which are never found invalid. */
  method CheckMutations(m: Mutations, allowed: Option<OutputResources>) returns (r: Attempt<Checked>)
    requires AllFiled(m)
    ensures r.Panicked? <==> allowed.None? || Broken(m) || exists c: ClusterType :: c !in m
    ensures r.Done? ==>
              && !Broken(r.value.filtered) && (forall c: ClusterType :: c in r.value.filtered)
              && IsFilterOf(r.value.filtered, m, allowed)
              && (exists all :: Gathers(m, all) && r.value.unspecified == Filter(all, NotAllowed(allowed.value)))
              && (r.value.errs == [] <==> !ProducesUnspecified(m, allowed.value))
              && (r.value.errs != [] ==> |r.value.errs| == 1 && r.value.errs[0].InvalidMutations?)
  {
    hide Total, Specified, AllFiled, Gathers, NotAllowed, Shown;
    var unspecified := UnspecifiedOutputResources(m, allowed);
    if unspecified.Panicked? {
      return Attempt.Panicked;
    }
    var errs: seq<RunError> := [];
    var raw := ValidateAllDesiredMutationsGetter(Some(m), allowed);
    if raw.value.Some? {
      errs := errs + [InvalidMutations(raw.value.value)];
    }
    var f := FilterAllDesiredMutationsGetter(m, allowed);
    FilterKeepsFiled(f, m, allowed);
    var filteredErrs := CheckFiltered(f, allowed);
    if filteredErrs.Panicked? {
      return Attempt.Panicked;
    }
    forall x | Total(f, x) > 0 ensures Specified(allowed.value, x) { FilteredIsSpecified(f, m, allowed.value, x); }
    errs := errs + filteredErrs.value;
    return Done(Checked(f, unspecified.value, errs));
  }

  predicate IsWriteError(e: RunError)
  {
    e.RequestsNotWritten? || e.UnspecifiedNotWritten? || e.ResultsNotMarshalled? || e.ResultsNotWritten?
  }

  /** The errors of the functions and of the raw mutations, then those of the writes, are the report. */
  lemma ReportAssembled(
    before: seq<RunError>, checkErrs: seq<RunError>, writeErrs: seq<RunError>, io: Io, p: Produced, b: Batches)
    requires Dereferenceable(p)
    requires before ==
             (if p.allowedFailed then [OutputResourcesFailed] else []) + (if p.applyFailed then [ApplyFailed] else []) +
             checkErrs
    requires checkErrs == [] <==> !ProducesUnspecified(p.mutations.value, p.allowed.value)
    requires checkErrs != [] ==> |checkErrs| == 1 && checkErrs[0].InvalidMutations?
    requires WritesReported(writeErrs, io, b) && forall e :: e in writeErrs ==> IsWriteError(e)
    ensures ReportsExactly(before + writeErrs, io, p, b)
  {
    hide ProducesUnspecified, WritesReported;
    var raw := if checkErrs == [] then None else Some(checkErrs[0].error);
    assert forall e :: e in before <==>
                       || (e == OutputResourcesFailed && p.allowedFailed) || (e == ApplyFailed && p.applyFailed)
                       || (raw.Some? && e == InvalidMutations(raw.value));
    WritesReportedLast(before, writeErrs, io, b);
    ReportOf(before, raw, before + writeErrs, writeErrs, io, p, b);
  }

  lemma ReportOf(
    before: seq<RunError>, raw: Option<ValidationError>, all: seq<RunError>, writeErrs: seq<RunError>, io: Io,
    p: Produced, b: Batches)
    requires Dereferenceable(p)
    requires forall e :: e in before <==>
                         || (e == OutputResourcesFailed && p.allowedFailed) || (e == ApplyFailed && p.applyFailed)
                         || (raw.Some? && e == InvalidMutations(raw.value))
    requires raw.Some? <==> ProducesUnspecified(p.mutations.value, p.allowed.value)
    requires forall e :: e in all <==> e in before || e in writeErrs
    requires WritesReported(all, io, b) && forall e :: e in writeErrs ==> IsWriteError(e)
    ensures ReportsExactly(all, io, p, b)
  {
    hide ProducesUnspecified, WritesReported;
    if raw.Some? { assert InvalidMutations(raw.value) in all; }
  }

  lemma WritesReportedLast(before: seq<RunError>, errs: seq<RunError>, io: Io, b: Batches)
    requires (forall e :: e in before ==> !IsWriteError(e)) && WritesReported(errs, io, b)
    ensures WritesReported(before + errs, io, b)
  {
    hide AllWhole, ClusterName;
    assert forall e :: e in before + errs <==> e in before || e in errs;
  }

  /** The writing part of a run; a failed write does not stop the next. */
  method WriteOutput(
    dir: OutputDirectory, io: Io, f: Mutations, unspecified: seq<Request>, results: Option<ApplyConfigurationRunResult>,
    ghost m: Mutations, ghost allowed: OutputResources)
    returns (errs: seq<RunError>, ghost b: Batches)
    requires !Broken(f) && (forall c: ClusterType :: c in f)
    requires IsFilterOf(f, m, Some(allowed))
    requires exists all :: Gathers(m, all) && unspecified == Filter(all, NotAllowed(allowed))
    modifies dir
    ensures AreBatches(m, allowed, b)
    ensures dir.entries == OutputOf(io, old(dir.entries), b, results)
    ensures WritesReported(errs, io, b)
    ensures forall e :: e in errs ==> IsWriteError(e)
  {
    hide IsFilterOf, AfterWrites, AfterClusters, AllWhole, AreBatches, Gathers, NotAllowed, ClusterName, ShownIn,
      WritesReported, Marshalled;
    var clustersOk, parts := WriteApplyConfiguration(dir, io, f);
    b := Batches(parts[0], parts[1], parts[2], unspecified);
    ClustersAfterFirst(io, old(dir.entries), parts, unspecified);
    ShownAreBatches(m, f, allowed, parts, unspecified);
    errs := if clustersOk then [] else [RequestsNotWritten];
    var unspecifiedErrs := WriteUnspecified(dir, io, unspecified);
    var resultsErrs := WriteControllerResults(dir, io, results);
    errs := errs + unspecifiedErrs + resultsErrs;
    WriteErrorsAssembled(parts, clustersOk, unspecifiedErrs, resultsErrs, io, unspecified);
  }

  lemma WriteErrorsAssembled(
    parts: seq<seq<Request>>, clustersOk: bool, unspecifiedErrs: seq<RunError>, resultsErrs: seq<RunError>, io: Io,
    unspecified: seq<Request>)
    requires |parts| == 3
    requires clustersOk <==> forall i :: 0 <= i < 3 ==> AllWhole(io, ClusterName(ALL_CLUSTER_TYPES[i]), parts[i])
    requires unspecifiedErrs == if AllWhole(io, UNSPECIFIED, unspecified) then [] else [UnspecifiedNotWritten]
    requires resultsErrs ==
             if !io.marshalOk then [ResultsNotMarshalled] else if !io.resultsOk then [ResultsNotWritten] else []
    ensures
      var errs := (if clustersOk then [] else [RequestsNotWritten]) + unspecifiedErrs + resultsErrs;
      && WritesReported(errs, io, Batches(parts[0], parts[1], parts[2], unspecified))
      && forall e :: e in errs ==> IsWriteError(e)
  {
    hide ClusterName, AllWhole;
    ClusterTypesListed();
    var b := Batches(parts[0], parts[1], parts[2], unspecified);
    if clustersOk {
      forall c: ClusterType ensures AllWhole(io, ClusterName(c), BatchFor(b, c)) {
        match c
        case Configuration => assert AllWhole(io, ClusterName(ALL_CLUSTER_TYPES[0]), parts[0]);
        case Management => assert AllWhole(io, ClusterName(ALL_CLUSTER_TYPES[1]), parts[1]);
        case UserWorkload => assert AllWhole(io, ClusterName(ALL_CLUSTER_TYPES[2]), parts[2]);
      }
    } else {
      var i :| 0 <= i < 3 && !AllWhole(io, ClusterName(ALL_CLUSTER_TYPES[i]), parts[i]);
      assert BatchFor(b, ALL_CLUSTER_TYPES[i]) == parts[i];
    }
  }

  /** The unspecified requests, if any, go into a directory of their own. */
  method WriteUnspecified(dir: OutputDirectory, io: Io, unspecified: seq<Request>) returns (errs: seq<RunError>)
    modifies dir
    ensures dir.entries == AfterWrites(io, UNSPECIFIED, old(dir.entries), unspecified)
    ensures errs == if AllWhole(io, UNSPECIFIED, unspecified) then [] else [UnspecifiedNotWritten]
  {
    errs := [];
    if |unspecified| > 0 {
      var ok := dir.WriteMutations(io, UNSPECIFIED, unspecified);
      if !ok {
        errs := errs + [UnspecifiedNotWritten];
      }
    }
  }

  method WriteControllerResults(dir: OutputDirectory, io: Io, results: Option<ApplyConfigurationRunResult>)
    returns (errs: seq<RunError>)
    modifies dir
    ensures dir.entries == AfterResults(io, old(dir.entries), results)
    ensures errs ==
            if !io.marshalOk then [ResultsNotMarshalled] else if !io.resultsOk then [ResultsNotWritten] else []
  {
    errs := [];
    if !io.marshalOk {
      errs := errs + [ResultsNotMarshalled];
    } else if !io.resultsOk {
      errs := errs + [ResultsNotWritten];
    } else {
      dir.entries := dir.entries[RESULTS := ResultsFile(Results(Marshalled(results)))];
    }
  }

  /** A run reports nothing exactly when nothing failed and nothing unspecified was produced. */
  lemma SilentRun(errs: seq<RunError>, io: Io, p: Produced, b: Batches)
    requires Dereferenceable(p) && ReportsExactly(errs, io, p, b)
    ensures errs == [] <==>
            && !p.allowedFailed && !p.applyFailed && !ProducesUnspecified(p.mutations.value, p.allowed.value)
            && (forall c: ClusterType :: AllWhole(io, ClusterName(c), BatchFor(b, c)))
            && AllWhole(io, UNSPECIFIED, b.unspecified) && io.marshalOk && io.resultsOk
  {
    hide ProducesUnspecified, AllWhole, ClusterName;
    if errs != [] {
      assert errs[0] in errs;
      assert errs[0].InvalidMutations? ==> InvalidMutations(errs[0].error) in errs;
    }
  }
}
