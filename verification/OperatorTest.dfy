/** When an operator passes its test, from its controllers to the verdict. */
module OperatorTest {
  import opened Kube
  import opened Requests
  import opened AllowList
  import opened MutationFiles
  import opened OutputFiles
  import opened ApplyConfiguration
  import opened DirectoryResult
  import opened Harness
  import opened OperatorRun
  import Controllers

  /** The results of an operator that was not refused, in canonical form. */
  function ResultsOf(cs: seq<Controllers.Controller>, flags: seq<string>)
    : Option<Controllers.ApplyConfigurationRunResult>
  {
    Some(
      Controllers.ApplyConfigurationRunResult(
        Controllers.Slice(Controllers.Canonical(Controllers.Results(cs, flags)))))
  }

  /** No result of a run has an empty list of errors. */
  lemma ResultsAreWritable(cs: seq<Controllers.Controller>, flags: seq<string>)
    ensures Writable(ResultsOf(cs, flags))
  {
    hide Controllers.Canonical, Controllers.Results, Controllers.Reported;
    Controllers.ResultsReported(cs, flags);
    var results := Controllers.Canonical(Controllers.Results(cs, flags));
    forall i | 0 <= i < |results| ensures results[i].errors != Some([]) {
      assert results[i] in results;
      var c :| c in cs && Controllers.Reported(c, flags, results[i]);
      ErrorsNotEmpty(c, flags, results[i]);
    }
  }

  lemma ErrorsNotEmpty(c: Controllers.Controller, flags: seq<string>, r: Controllers.ControllerRunResult)
    requires Controllers.Reported(c, flags, r)
    ensures r.errors != Some([])
  {
    hide Controllers.Enabled;
    if r.status == Controllers.Failed {
      assert Controllers.Fails(c, flags, c.outcome.message);
      assert r.errors == Some([c.outcome.message]);
    }
  }

  /** The canonical results of an operator come back from its output directory unchanged. */
  lemma OperatorResultsReadBack(
    io: Io, before: Entries, b: Batches, cs: seq<Controllers.Controller>, flags: seq<string>, v: View,
    execError: Option<ExecError>, actual: Result, failure: Option<Failure>)
    requires io.marshalOk && io.resultsOk
    requires v.Listed? && v.entries == OutputOf(io, before, b, ResultsOf(cs, flags))
    requires "controller-results.yaml" !in v.broken
    requires ReadAs(io.coding, v, execError, Some(actual), failure)
    ensures actual.controllerResults == ResultsOf(cs, flags)
  {
    hide ReadAs, OutputOf, ReadBackAs, Writable, ResultsOf;
    ResultsAreWritable(cs, flags);
    ResultsRoundTrip(io, before, b, ResultsOf(cs, flags), v, execError, actual, failure);
  }

  /** The test expects the operator's results and, per cluster type, events aside, the requests that its controllers
      make and the list of the cluster type allows. */
  ghost predicate Expects(
    t: TestCase, cs: seq<Controllers.Controller>, flags: seq<string>, allowed: OutputResources)
    requires ExpectedIsRead(t) && t.expectedErr.None?
  {
    var mutations := t.expected.value.mutations;
    && t.expected.value.controllerResults == ResultsOf(cs, flags)
    && Holds(Side(mutations, Configuration), cs, flags, allowed.configuration)
    && Holds(Side(mutations, Management), cs, flags, allowed.management)
    && Holds(Side(mutations, UserWorkload), cs, flags, allowed.userWorkload)
  }

  /** The requests are those made that the list allows, events aside. */
  ghost predicate Holds(
    side: Option<set<Request>>, cs: seq<Controllers.Controller>, flags: seq<string>, list: ResourceList)
  {
    side.Some? && forall x: Request :: !IsEvent(x.metadata) ==>
      (x in side.value <==> Makes(cs, flags, x) && Allows(list, x.metadata))
  }

  /** When an operator passes its test, exactly. All writes but perhaps those of unspecified requests succeeded, and
      what each cluster type is written conflicts in no way. The test passes if and only if no directory of unspecified
      requests was left, the process ended as desired, and the test expects the operator's results and the requests its
      controllers make, each where the list of the cluster type allows it. */
  lemma OperatorPassesExactly(
    before: Entries, after: Entries, io: Io, b: Batches, cs: seq<Controllers.Controller>, flags: seq<string>,
    allowed: OutputResources, v: View, execError: Option<ExecError>, t: TestCase)
    requires WritesMade(b, cs, flags, allowed)
    requires WroteTheRest(before, after, io, b, ResultsOf(cs, flags)) && v == Listed(after, map[])
    requires IsTestOf(io.coding, t, v, execError)
    requires Sound(io.coding) && forall c: ClusterType :: NoConflictIn(io.coding, b, c)
    ensures Passes(t) <==>
            !LeavesUnspecified(io, b) && ExitsAsDesired(execError, t) && Expects(t, cs, flags, allowed)
  {
    hide WroteTheRest, ReadAs, Readable, ReadSet, ReadBackAs, LeavesUnspecified, Passes, NoConflictIn, Sound, ResultsOf,
      WritesMade, Holds;
    RunPassesExactly(before, after, io, b, ResultsOf(cs, flags), v, execError, t);
    forall c: ClusterType
      ensures Readable(io.coding, WrittenFor(io, b, c))
      ensures forall x :: x in ReadSet(io.coding, WrittenFor(io, b, c)) <==> x in BatchFor(b, c)
    {
      BatchReadBack(io.coding, b, c);
    }
    ExpectedResults(t.expected.value.controllerResults, cs, flags);
    ExpectedRequests(t, io, b, cs, flags, allowed);
  }

  lemma ExpectedResults(
    expected: Option<Controllers.ApplyConfigurationRunResult>, cs: seq<Controllers.Controller>, flags: seq<string>)
    ensures ReadBackAs(ResultsOf(cs, flags), expected) <==> expected == ResultsOf(cs, flags)
  {
    hide ResultsOf, ReadBackAs, Writable;
    var results := ResultsOf(cs, flags);
    ResultsAreWritable(cs, flags);
    MarshalledReadsBack(results);
    UnchangedExactly(results, ParsedResults(Results(Marshalled(results))));
    if ReadBackAs(results, expected) { UnchangedExactly(results, expected); }
  }

  lemma ExpectedRequests(
    t: TestCase, io: Io, b: Batches, cs: seq<Controllers.Controller>, flags: seq<string>, allowed: OutputResources)
    requires ExpectedIsRead(t) && t.expectedErr.None? && WritesMade(b, cs, flags, allowed)
    requires forall c: ClusterType, x :: x in ReadSet(io.coding, WrittenFor(io, b, c)) <==> x in BatchFor(b, c)
    ensures ExpectsOutput(t, io, b, ResultsOf(cs, flags)) <==>
            && ReadBackAs(ResultsOf(cs, flags), t.expected.value.controllerResults)
            && Holds(Side(t.expected.value.mutations, Configuration), cs, flags, allowed.configuration)
            && Holds(Side(t.expected.value.mutations, Management), cs, flags, allowed.management)
            && Holds(Side(t.expected.value.mutations, UserWorkload), cs, flags, allowed.userWorkload)
  {
    hide ReadSet, WrittenFor, ReadBackAs, ResultsOf, Makes, Allows, IsEvent, Side, WritesMade, Holds, SameSide;
    var mutations := t.expected.value.mutations;
    forall c: ClusterType
      ensures SameSide(Side(mutations, c), Some(ReadSet(io.coding, WrittenFor(io, b, c)))) <==>
              Holds(Side(mutations, c), cs, flags, ListFor(allowed, c))
    {
      SideHolds(Side(mutations, c), ReadSet(io.coding, WrittenFor(io, b, c)), b, cs, flags, allowed, c);
    }
    assert ListFor(allowed, Configuration) == allowed.configuration &&
      ListFor(allowed, Management) == allowed.management;
    assert ListFor(allowed, UserWorkload) == allowed.userWorkload;
    if Holds(Side(mutations, Configuration), cs, flags, allowed.configuration)
       && Holds(Side(mutations, Management), cs, flags, allowed.management)
       && Holds(Side(mutations, UserWorkload), cs, flags, allowed.userWorkload) {
      forall c: ClusterType ensures Holds(Side(mutations, c), cs, flags, ListFor(allowed, c)) {
        match c case Configuration => case Management => case UserWorkload =>
      }
    }
  }

  lemma SideHolds(
    side: Option<set<Request>>, read: set<Request>, b: Batches, cs: seq<Controllers.Controller>, flags: seq<string>,
    allowed: OutputResources, c: ClusterType)
    requires WritesMade(b, cs, flags, allowed)
    requires forall x :: x in read <==> x in BatchFor(b, c)
    ensures SameSide(side, Some(read)) <==> Holds(side, cs, flags, ListFor(allowed, c))
  {
    hide Makes, Allows, IsEvent;
    forall x ensures x in read <==> Makes(cs, flags, x) && Allows(ListFor(allowed, c), x.metadata) {
      match c case Configuration => case Management => case UserWorkload =>
    }
  }
}
