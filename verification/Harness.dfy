/** tester.go: the verdict on one apply-configuration test, and on a suite of them. */
module Harness {
  import opened Kube
  import opened Controllers
  import opened Requests
  import opened AllowList
  import opened Unspecified
  import opened MutationFiles
  import opened OutputFiles
  import opened ApplyConfiguration
  import opened DirectoryResult
  import RequestDiff

  /** The requests a result shows for a cluster type; None for a nil getter. */
  function Side(l: Loaded, c: ClusterType): Option<set<Request>>
  {
    if l.Loaded? && c in l.requests then Some(l.requests[c]) else None
  }

  /** Equal requests on both sides once events are dropped, or no getter on either. */
  ghost predicate SameSide(a: Option<set<Request>>, b: Option<set<Request>>)
  {
    if a.None? || b.None? then a.None? && b.None?
    else forall x: Request :: !IsEvent(x.metadata) ==> (x in a.value <==> x in b.value)
  }

  /** The two results have the same error, the same controller results and, per cluster type, the same requests. */
  ghost predicate SameResult(a: Result, b: Result)
  {
    && a.error == b.error
    && a.controllerResults == b.controllerResults
    && forall c: ClusterType :: SameSide(Side(a.mutations, c), Side(b.mutations, c))
  }

  datatype Difference =
    | ErrorsDiffer
    | ControllerResultsDiffer
    | RequestsDiffer(cluster: ClusterType, reason: RequestDiff.Reason)

  /** A tracker's requests in some order. */
  method Enumerate(s: set<Request>) returns (xs: seq<Request>)
    ensures forall x :: x in xs <==> x in s
  {
    xs := [];
    var todo := s;
    while todo != {}
      invariant todo <= s
      invariant forall x :: x in xs <==> x in s && x !in todo
    {
      var x :| x in todo;
      todo := todo - {x};
      xs := xs + [x];
    }
  }

  method EnumerateSide(s: Option<set<Request>>) returns (xs: Option<seq<Request>>)
    ensures xs.Some? <==> s.Some?
    ensures s.Some? ==> forall x :: x in xs.value <==> x in s.value
  {
    if s.None? {
      return None;
    }
    var all := Enumerate(s.value);
    return Some(all);
  }

  method CompareSides(p: RequestDiff.Parser, a: Option<set<Request>>, b: Option<set<Request>>)
    returns (reasons: seq<RequestDiff.Reason>)
    ensures reasons == [] <==> SameSide(a, b)
  {
    var lhs := EnumerateSide(a);
    var rhs := EnumerateSide(b);
    reasons := RequestDiff.EquivalentClusterApplyResultIgnoringEvents(p, lhs, rhs);
    RequestDiff.DiffDecidesEquivalence(p, lhs, rhs);
  }

  /** No difference exactly for the same results; reading the mutations of a nil configuration panics, whatever was
      found before. */
  method EquivalentApplyConfigurationResultIgnoringEvents(p: RequestDiff.Parser, lhs: Result, rhs: Result)
    returns (r: Attempt<seq<Difference>>)
    ensures r.Panicked? <==> lhs.mutations.NilConfiguration? || rhs.mutations.NilConfiguration?
    ensures r.Done? ==> (r.value == [] <==> SameResult(lhs, rhs))
    ensures r.Done? ==> (ErrorsDiffer in r.value <==> lhs.error != rhs.error)
    ensures r.Done? ==> (ControllerResultsDiffer in r.value <==> lhs.controllerResults != rhs.controllerResults)
  {
    var differences: seq<Difference> := [];
    if lhs.error != rhs.error {
      differences := differences + [ErrorsDiffer];
    }
    if lhs.controllerResults != rhs.controllerResults {
      differences := differences + [ControllerResultsDiffer];
    }
    if lhs.mutations.NilConfiguration? || rhs.mutations.NilConfiguration? {
      return Attempt.Panicked;
    }
    for i := 0 to |ALL_CLUSTER_TYPES|
      invariant differences == [] <==>
                lhs.error == rhs.error && lhs.controllerResults == rhs.controllerResults &&
                forall j :: 0 <= j < i ==>
                  SameSide(Side(lhs.mutations, ALL_CLUSTER_TYPES[j]), Side(rhs.mutations, ALL_CLUSTER_TYPES[j]))
      invariant ErrorsDiffer in differences <==> lhs.error != rhs.error
      invariant ControllerResultsDiffer in differences <==> lhs.controllerResults != rhs.controllerResults
    {
      var c := ALL_CLUSTER_TYPES[i];
      var reasons := CompareSides(p, Side(lhs.mutations, c), Side(rhs.mutations, c));
      differences := differences + seq(|reasons|, k requires 0 <= k < |reasons| => RequestsDiffer(c, reasons[k]));
    }
    ClusterTypesListed();
    if differences == [] {
      forall c: ClusterType ensures SameSide(Side(lhs.mutations, c), Side(rhs.mutations, c)) {
        match c case Configuration => case Management => case UserWorkload =>
      }
    }
    return Done(differences);
  }

  /** `errors.As` with an exit error: the code of the first one in the tree. */
  function FirstExit(errs: seq<ReadError>): Option<int>
  {
    if errs == [] then None
    else match errs[0]
         case ExecFailed(ExitError(code)) => Some(code)
         case _ => FirstExit(errs[1..])
  }

  function ExitCode(f: Failure): Option<int>
  {
    match f
    case Exec(ExitError(code)) => Some(code)
    case Joined(errs) => FirstExit(errs)
    case _ => None
  }

  /** One test: what it desires, what executing the operator gave, what reading the expected output gave, and whether
      its output directory could be removed and created. */
  datatype TestCase = TestCase(
    name: string, desiresNonZero: bool,
    actual: Option<Result>, execErr: Option<Failure>,
    expected: Option<Result>, expectedErr: Option<Failure>,
    removeOk: bool, mkdirOk: bool)

  datatype Verdict = Passed | FailedTest | PanickedTest

  /** Expected output that is read without error has loaded mutations and no error of its own. */
  predicate ExpectedIsRead(t: TestCase)
  {
    t.expectedErr.None? ==> t.expected.Some? && t.expected.value.error.None? && t.expected.value.mutations.Loaded?
  }

  /** The exit of the operator gets the test as far as comparing outputs. */
  predicate ComparesOutput(t: TestCase)
  {
    && t.actual.Some?
    && (t.execErr.Some? ==> ExitCode(t.execErr.value).Some?)
    && t.expectedErr.None?
  }

  /** When a test passes: a result whose exit is the desired one and whose output is the expected one, or no result but
      the desired non-zero exit. */
  ghost predicate Passes(t: TestCase)
    requires ExpectedIsRead(t)
  {
    || (ComparesOutput(t) && (t.execErr.Some? <==> t.desiresNonZero) && SameResult(t.expected.value, t.actual.value))
    || (t.actual.None? && t.execErr.Some? && t.desiresNonZero
        && ExitCode(t.execErr.value).Some? && ExitCode(t.execErr.value).value != 0)
  }

  /** Executing the test takes the suite down. */
  predicate Explodes(t: TestCase, replaceExpected: bool)
  {
    !replaceExpected && t.mkdirOk && ComparesOutput(t) && t.actual.value.mutations.NilConfiguration?
  }

  /** Executing the test succeeds. Replacing the expected output asks only for the output directory. */
  ghost predicate GoesWell(t: TestCase, replaceExpected: bool)
    requires ExpectedIsRead(t)
  {
    && t.mkdirOk
    && (if replaceExpected then t.removeOk else Passes(t) && !Explodes(t, replaceExpected))
  }

  /** Outside replace mode and with the output directory created, a test passes exactly when `Passes` says. It panics,
      taking the suite with it, exactly when outputs are compared and the actual configuration could not be built. */
  method RunTest(p: RequestDiff.Parser, t: TestCase, replaceExpected: bool) returns (v: Verdict)
    requires ExpectedIsRead(t)
    ensures v == PanickedTest <==> Explodes(t, replaceExpected)
    ensures v == Passed <==> GoesWell(t, replaceExpected)
    ensures replaceExpected ==> v == if t.removeOk && t.mkdirOk then Passed else FailedTest
    ensures !replaceExpected && !t.mkdirOk ==> v == FailedTest
    ensures !replaceExpected && t.mkdirOk && t.actual.None? && t.execErr.None? ==> v == FailedTest
    ensures forall code ::
              !replaceExpected && t.mkdirOk && t.actual.None? && t.execErr == Some(Exec(ExitError(code))) ==>
                v == if t.desiresNonZero && code != 0 then Passed else FailedTest
  {
    if replaceExpected {
      if !t.removeOk {
        return FailedTest;
      }
    }
    if !t.mkdirOk {
      return FailedTest;
    }
    if replaceExpected {
      return Passed;
    }
    var failed := false;
    if t.execErr.None? && t.actual.Some? {
      if t.desiresNonZero {
        failed := true;
      }
    } else if t.execErr.None? && t.actual.None? {
      return FailedTest;
    } else if t.execErr.Some? && t.actual.Some? {
      if !t.desiresNonZero {
        failed := true;
      }
      if ExitCode(t.execErr.value).None? {
        return FailedTest;
      }
    } else {
      if !t.desiresNonZero {
        return FailedTest;
      }
      if ExitCode(t.execErr.value).Some? && ExitCode(t.execErr.value).value != 0 {
        return Passed;
      }
      return FailedTest;
    }
    if t.expectedErr.Some? {
      return FailedTest;
    }
    var differences := EquivalentApplyConfigurationResultIgnoringEvents(p, t.expected.value, t.actual.value);
    if differences.Panicked? {
      return PanickedTest;
    }
    if |differences.value| > 0 {
      return FailedTest;
    }
    return if failed then FailedTest else Passed;
  }

  /** Once cancelled, always cancelled. */
  ghost predicate Monotone(cancelled: nat -> bool)
  {
    forall i: nat, j: nat :: i <= j && cancelled(i) ==> cancelled(j)
  }

  datatype SuiteResult = SuiteOk | SuiteError | SuitePanicked

  /** The suite: `cancelled(i)` is what the context says before test `i`, and at the end for `i` the number of tests. A
      suite succeeds exactly when its directory could be created, the report written, and every test was executed and
      went well without a cancellation up to the end. Failing to remove old output is recorded and does not count. */
  method RunSuite(
    p: RequestDiff.Parser, tests: seq<TestCase>, replaceExpected: bool, mkdirOk: bool, marshalOk: bool, writeOk: bool,
    cancelled: nat -> bool)
    returns (r: SuiteResult, executed: nat)
    requires forall t :: t in tests ==> ExpectedIsRead(t)
    requires Monotone(cancelled)
    ensures executed <= |tests|
    ensures r == SuiteOk ==> executed == |tests|
    ensures r == SuiteOk <==>
            && mkdirOk && marshalOk && writeOk && !cancelled(|tests|)
            && forall t :: t in tests ==> GoesWell(t, replaceExpected)
    ensures r == SuitePanicked <==>
            mkdirOk && exists i :: 0 <= i < |tests| && !cancelled(i) && Explodes(tests[i], replaceExpected)
  {
    executed := 0;
    if !mkdirOk {
      return SuiteError, 0;
    }
    var failedTests: set<string> := {};
    while executed < |tests|
      invariant executed <= |tests|
      invariant forall j :: 0 <= j < executed ==> !Explodes(tests[j], replaceExpected)
      invariant failedTests == {} <==> forall j :: 0 <= j < executed ==> GoesWell(tests[j], replaceExpected)
      decreases |tests| - executed
    {
      if cancelled(executed) {
        break;
      }
      assert tests[executed] in tests;
      var v := RunTest(p, tests[executed], replaceExpected);
      if v == PanickedTest {
        return SuitePanicked, executed;
      }
      if v != Passed {
        failedTests := failedTests + {tests[executed].name};
      }
      executed := executed + 1;
    }
    assert (forall t :: t in tests ==> GoesWell(t, replaceExpected)) <==>
           (forall j :: 0 <= j < |tests| ==> GoesWell(tests[j], replaceExpected)) by {
      assert forall j :: 0 <= j < |tests| ==> tests[j] in tests;
    }
    if !marshalOk || !writeOk {
      return SuiteError, executed;
    }
    if |failedTests| > 0 {
      return SuiteError, executed;
    }
    if cancelled(|tests|) {
      return SuiteError, executed;
    }
    return SuiteOk, executed;
  }

  /** A run that began to write something unspecified can never pass a test, whatever exit the test desires and whatever
      else was written or failed to be: the directory makes its result carry an error, and expected output that can be
      read carries none. */
  lemma UnspecifiedOutputNeverPasses(
    before: Entries, io: Io, b: Batches, results: Option<ApplyConfigurationRunResult>, v: View,
    execError: Option<ExecError>, actual: Result, failure: Option<Failure>, t: TestCase)
    requires v.Listed? && v.entries == OutputOf(io, before, b, results) && LeavesUnspecified(io, b)
    requires ReturnsFor(io.coding, v, execError, actual, failure)
    requires ExpectedIsRead(t) && t.actual == Some(actual) && t.execErr == failure
    ensures !Passes(t)
  {
    hide OutputOf, AfterWrites, SomeBegun, ClusterName, ReadableCluster, Marshalled;
    NamesApart(Configuration);
    OutputEntries(io, before, b, results);
    AfterWritesEntries(io, UNSPECIFIED, before, b.unspecified);
    assert Unexpected(v.entries, UNSPECIFIED);
    assert Troubled(io.coding, v);
  }

  /** The test expects the results, but for empty lists of errors, and per cluster type what the files written for it
      read as, events aside. */
  ghost predicate ExpectsOutput(t: TestCase, io: Io, b: Batches, results: Option<ApplyConfigurationRunResult>)
    requires ExpectedIsRead(t) && t.expectedErr.None?
  {
    && ReadBackAs(results, t.expected.value.controllerResults)
    && forall c: ClusterType ::
         SameSide(Side(t.expected.value.mutations, c), Some(ReadSet(io.coding, WrittenFor(io, b, c))))
  }

  /** The result of executing a run, as the test reads it, and expected output that could be read. */
  ghost predicate IsTestOf(coding: Coding, t: TestCase, v: View, execError: Option<ExecError>)
  {
    ExpectedIsRead(t) && t.expectedErr.None? && ReadAs(coding, v, execError, t.actual, t.execErr)
  }

  /** The run left nothing that reading its output stumbles over. */
  predicate ReadsBack(io: Io, b: Batches)
  {
    !LeavesUnspecified(io, b) && forall c: ClusterType :: Readable(io.coding, WrittenFor(io, b, c))
  }

  /** The run ended as the test desires: without an error, or with an exit error. */
  predicate ExitsAsDesired(execError: Option<ExecError>, t: TestCase)
  {
    (execError.Some? <==> t.desiresNonZero) && (execError.Some? ==> execError.value.ExitError?)
  }

  /** When a run passes a test, exactly. All writes but perhaps that of the unspecified requests succeeded: the run
      passes if it wrote nothing unspecified and nothing unreadable, if it failed with an exit error exactly as desired,
      and if the test expects what its files read as. */
  lemma RunPassesExactly(
    before: Entries, after: Entries, io: Io, b: Batches, results: Option<ApplyConfigurationRunResult>, v: View,
    execError: Option<ExecError>, t: TestCase)
    requires WroteTheRest(before, after, io, b, results) && v == Listed(after, map[])
    requires IsTestOf(io.coding, t, v, execError)
    ensures Passes(t) <==> ReadsBack(io, b) && ExitsAsDesired(execError, t) && ExpectsOutput(t, io, b, results)
  {
    WriteReadAgreement(before, after, io, b, results, v);
    hide WroteTheRest, Readable, ReadSet, RequestsIn, ReadableCluster, WrittenFor, ParsedResults, Troubled,
      LeavesUnspecified, ReadBackAs;
    var e, actual := t.expected.value, t.actual.value;
    SameResultsExactly(results, e, actual);
    if ReadsBack(io, b) {
      assert actual.error.None? && !actual.mutations.NilConfiguration?;
      SameSidesExactly(e, actual, after, io, b);
    }
  }

  lemma SameResultsExactly(results: Option<ApplyConfigurationRunResult>, e: Result, actual: Result)
    requires ReadBackAs(results, actual.controllerResults)
    ensures e.controllerResults == actual.controllerResults <==> ReadBackAs(results, e.controllerResults)
  {
    if ReadBackAs(results, e.controllerResults) {
      ReadBackUnique(results, e.controllerResults, actual.controllerResults);
    }
  }

  /** Two loaded results have the same requests per cluster type exactly when one has what the other's files read as. */
  lemma SameSidesExactly(e: Result, actual: Result, after: Entries, io: Io, b: Batches)
    requires MutationsRead(io.coding, actual.mutations, Listed(after, map[])) && !actual.mutations.NilConfiguration?
    requires forall c: ClusterType :: RequestsIn(io.coding, after, c) == ReadSet(io.coding, WrittenFor(io, b, c))
    ensures (forall c: ClusterType :: SameSide(Side(e.mutations, c), Side(actual.mutations, c))) <==>
            (forall c: ClusterType :: SameSide(Side(e.mutations, c), Some(ReadSet(io.coding, WrittenFor(io, b, c)))))
  {
    hide ReadSet, RequestsIn, WrittenFor, ReadableCluster;
    forall c: ClusterType ensures Side(actual.mutations, c) == Some(RequestsIn(io.coding, after, c)) {}
  }

  /** The test expects the results, but for empty lists of errors, and per cluster type the produced requests that its
      own list allows, events aside. */
  ghost predicate ExpectsAllowed(
    t: TestCase, m: Mutations, allowed: OutputResources, results: Option<ApplyConfigurationRunResult>)
    requires ExpectedIsRead(t) && t.expectedErr.None?
  {
    && ReadBackAs(results, t.expected.value.controllerResults)
    && forall c: ClusterType ::
         var side := Side(t.expected.value.mutations, c);
         side.Some? && forall x: Request :: !IsEvent(x.metadata) ==>
           (x in side.value <==> AllowedIn(m, allowed, c)(x))
  }

  /** When a run passes a test whose allowed requests conflict in no way: what is expected is then what was produced and
      allowed. */
  lemma ConflictFreePassesExactly(
    before: Entries, after: Entries, io: Io, m: Mutations, allowed: OutputResources, b: Batches,
    results: Option<ApplyConfigurationRunResult>, v: View, execError: Option<ExecError>, t: TestCase)
    requires WroteTheRest(before, after, io, b, results) && v == Listed(after, map[])
    requires IsTestOf(io.coding, t, v, execError)
    requires AllFiled(m) && AreBatches(m, allowed, b)
    requires Sound(io.coding) && forall c: ClusterType :: NoConflictIn(io.coding, b, c)
    ensures Passes(t) <==>
            !LeavesUnspecified(io, b) && ExitsAsDesired(execError, t) && ExpectsAllowed(t, m, allowed, results)
  {
    hide WroteTheRest, ReadAs, Readable, ReadSet, AllowedIn, ReadBackAs, LeavesUnspecified, Passes,
      NoConflictIn, AreBatches, AllFiled, Sound;
    RunPassesExactly(before, after, io, b, results, v, execError, t);
    forall c: ClusterType
      ensures Readable(io.coding, WrittenFor(io, b, c))
      ensures forall x :: x in ReadSet(io.coding, WrittenFor(io, b, c)) <==> AllowedIn(m, allowed, c)(x)
    {
      AllowedReadBack(io.coding, m, allowed, b, c);
    }
    hide WrittenFor;
    assert ExpectsOutput(t, io, b, results) <==> ExpectsAllowed(t, m, allowed, results);
  }

  /** A run that produced something unspecified and failed with an exit error passes some test exactly when the
      unspecified requests could not be written and everything else can be read. */
  lemma UnspecifiedPassesExactlyUnwritten(
    before: Entries, after: Entries, io: Io, b: Batches, results: Option<ApplyConfigurationRunResult>, v: View,
    code: int, actual: Result, failure: Option<Failure>)
    requires WroteTheRest(before, after, io, b, results) && v == Listed(after, map[])
    requires ReadAs(io.coding, v, Some(ExitError(code)), Some(actual), failure)
    ensures ReadsBack(io, b) <==>
            exists t :: IsTestOf(io.coding, t, v, Some(ExitError(code))) && t.actual == Some(actual)
                        && t.execErr == failure && Passes(t)
  {
    hide WroteTheRest, ReadAs, LeavesUnspecified, Passes, Readable;
    if t :| IsTestOf(io.coding, t, v, Some(ExitError(code))) && t.actual == Some(actual) && t.execErr == failure
            && Passes(t) {
      RunPassesExactly(before, after, io, b, results, v, Some(ExitError(code)), t);
    }
    if ReadsBack(io, b) {
      var expected := ExpectedOf(before, after, io, b, results, v, code, actual, failure);
      var t := TestCase("", true, Some(actual), failure, Some(expected), None, true, true);
      RunPassesExactly(before, after, io, b, results, v, Some(ExitError(code)), t);
    }
  }

  /** The expected output of a run that left nothing unexpected in its directory: what was read of it. */
  lemma ExpectedOf(
    before: Entries, after: Entries, io: Io, b: Batches, results: Option<ApplyConfigurationRunResult>, v: View,
    code: int, actual: Result, failure: Option<Failure>)
    returns (expected: Result)
    requires WroteTheRest(before, after, io, b, results) && v == Listed(after, map[])
    requires ReadAs(io.coding, v, Some(ExitError(code)), Some(actual), failure) && ReadsBack(io, b)
    ensures
      var t := TestCase("", true, Some(actual), failure, Some(expected), None, true, true);
      ExpectedIsRead(t) && ExpectsOutput(t, io, b, results)
  {
    WriteReadAgreement(before, after, io, b, results, v);
    hide WroteTheRest, Readable, ReadSet, RequestsIn, ReadableCluster, WrittenFor, ParsedResults, Troubled,
      LeavesUnspecified, ReadBackAs;
    expected := actual;
    forall c: ClusterType ensures Side(actual.mutations, c) == Some(RequestsIn(io.coding, after, c)) {}
  }

  /** A test whose execution gave no result never passes, also one that desires a failure: without a result there is no
      exit error, only a process that could not be started or a directory that could not be listed. */
  lemma NoResultNeverPasses(coding: Coding, v: View, execError: Option<ExecError>, t: TestCase)
    requires ExpectedIsRead(t) && t.actual.None?
    requires t.execErr == Some(CannotStart) || ReadAs(coding, v, execError, t.actual, t.execErr)
    ensures !Passes(t)
  {
  }

  /** A non-zero exit that leaves a cluster type's directory unreadable crashes the suite: the result is read with a nil
      configuration, the exit error lets the comparison go ahead, and the comparison dereferences it. */
  lemma UnreadableOutputPanics(
    coding: Coding, v: View, code: int, actual: Result, failure: Option<Failure>, t: TestCase)
    requires v.Listed? && exists c: ClusterType :: !ReadableCluster(coding, v, c)
    requires ReadAs(coding, v, Some(ExitError(code)), Some(actual), failure)
    requires t.actual == Some(actual) && t.execErr == failure && t.expectedErr.None?
    ensures ComparesOutput(t) && t.actual.value.mutations.NilConfiguration?
  {
    hide ReadableCluster;
    assert Troubled(coding, v);
    var errs :| AccountsFor(errs, coding, v) && errs != []
                && failure.Some? && failure.value.Joined? && actual.error == Some(failure.value.errs)
                && Joins(failure.value.errs, errs, Some(ExitError(code)));
    assert failure.value.errs == errs + [ExecFailed(ExitError(code))];
    ExitIsFound(errs, code);
  }

  lemma {:induction false} ExitIsFound(errs: seq<ReadError>, code: int)
    requires forall e :: e in errs ==> !e.ExecFailed?
    ensures FirstExit(errs + [ExecFailed(ExitError(code))]) == Some(code)
  {
    var all := errs + [ExecFailed(ExitError(code))];
    if errs != [] {
      assert errs[0] in errs && all[1..] == errs[1..] + [ExecFailed(ExitError(code))];
      ExitIsFound(errs[1..], code);
    }
  }

  lemma {:induction false} NoExitFound(errs: seq<ReadError>)
    requires forall e :: e in errs && e.ExecFailed? ==> e.error == OtherExecError
    ensures FirstExit(errs).None?
  {
    if errs != [] {
      assert errs[0] in errs;
      NoExitFound(errs[1..]);
    }
  }

  /** The exit code that a test sees is that of the execution, whatever else was wrong with the output; without an exit
      error it sees none. */
  lemma ExitCodeIsKept(
    coding: Coding, v: View, execError: Option<ExecError>, actual: Option<Result>, failure: Option<Failure>)
    requires ReadAs(coding, v, execError, actual, failure) && failure.Some? && !v.Unlistable?
    ensures ExitCode(failure.value) ==
            match execError case Some(ExitError(code)) => Some(code) case _ => None
  {
    if v.Listed? {
      hide ReadableCluster, Troubled, MutationsRead;
      if Troubled(coding, v) {
        var errs :| AccountsFor(errs, coding, v) && errs != []
                    && failure.Some? && failure.value.Joined? && actual.value.error == Some(failure.value.errs)
                    && Joins(failure.value.errs, errs, execError);
        var all := failure.value.errs;
        match execError {
          case None =>
            NoExitFound(all);
          case Some(e) =>
            assert all == errs + [ExecFailed(e)];
            if e.ExitError? { ExitIsFound(errs, e.code); } else { NoExitFound(all); }
        }
      }
    }
  }
}
