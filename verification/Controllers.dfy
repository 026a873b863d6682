/** operator_launch_helpers.go and types.go: running every controller once, in random order, with a canonical result. */
module Controllers {
  import opened Seqs
  import opened GoStrings
  import opened StableSort
  import opened Kube
  import Requests
  import AllowList

  /** What one call of a controller does; fixed per controller, so the order of the calls does not influence it. */
  datatype Outcome = Returns | ReturnsError(message: string) | Panics(stack: string)

  /** A controller and what a call of it does: the requests it makes, and how it ends. */
  datatype Controller = Controller(name: string, requests: seq<Requests.Request>, outcome: Outcome)

  datatype Status = Unknown | Succeeded | Skipped | Failed | Panicked

  function StatusText(s: Status): string
  {
    match s
    case Unknown => "Unknown"
    case Succeeded => "Succeeded"
    case Skipped => "Skipped"
    case Failed => "Failed"
    case Panicked => "Panicked"
  }

  /** `errors` is None for a nil slice. */
  datatype ControllerRunResult = ControllerRunResult(
    name: string, status: Status, errors: Option<seq<string>>, panicStack: string)

  /** The result of a run; a nil slice is not the empty one. */
  datatype ApplyConfigurationRunResult = ApplyConfigurationRunResult(
    controllerResults: Option<seq<ControllerRunResult>>)

  /** What appending to a nil slice leads to. */
  function Slice<T>(xs: seq<T>): Option<seq<T>>
  {
    if xs == [] then None else Some(xs)
  }

  function Append<T>(slice: Option<seq<T>>, x: T): Option<seq<T>>
  {
    match slice
    case None => Some([x])
    case Some(xs) => Some(xs + [x])
  }

  datatype RunError = RunError(name: string, message: string)

  /** `sortControllerRunResult`: by name, status, panic stack; error details are not compared. */
  function CompareResults(a: ControllerRunResult, b: ControllerRunResult): int
  {
    if Compare(a.name, b.name) != 0 then Compare(a.name, b.name)
    else if Compare(StatusText(a.status), StatusText(b.status)) != 0
    then Compare(StatusText(a.status), StatusText(b.status))
    else Compare(a.panicStack, b.panicStack)
  }

  lemma CompareResultsTransitive(a: ControllerRunResult, b: ControllerRunResult, c: ControllerRunResult)
    requires CompareResults(a, b) <= 0 && CompareResults(b, c) <= 0
    ensures CompareResults(a, c) <= 0
  {
    hide Compare, StatusText;
    CompareZero(a.name, b.name);
    CompareZero(b.name, c.name);
    CompareZero(a.name, c.name);
    CompareTransitive(a.name, b.name, c.name);
    var sa, sb, sc := StatusText(a.status), StatusText(b.status), StatusText(c.status);
    if a.name == b.name == c.name {
      CompareZero(sa, sb);
      CompareZero(sb, sc);
      CompareZero(sa, sc);
      CompareTransitive(sa, sb, sc);
      if sa == sb == sc {
        CompareTransitive(a.panicStack, b.panicStack, c.panicStack);
      }
    }
  }

  /** The comparator is a total preorder, as stable sorting demands. */
  lemma CompareResultsIsComparator()
    ensures IsComparator(CompareResults)
  {
    forall a, b ensures CompareResults(a, b) <= 0 <==> CompareResults(b, a) >= 0 {
      CompareAntisymmetric(a.name, b.name);
      CompareAntisymmetric(StatusText(a.status), StatusText(b.status));
      CompareAntisymmetric(a.panicStack, b.panicStack);
    }
    forall a, b, c | CompareResults(a, b) <= 0 && CompareResults(b, c) <= 0 ensures CompareResults(a, c) <= 0 {
      CompareResultsTransitive(a, b, c);
    }
  }

  /** The order of the statuses' names. */
  predicate StatusBefore(a: Status, b: Status)
  {
    match a
    case Failed => !b.Failed?
    case Panicked => b.Skipped? || b.Succeeded? || b.Unknown?
    case Skipped => b.Succeeded? || b.Unknown?
    case Succeeded => b.Unknown?
    case Unknown => false
  }

  lemma StatusTextOrder(a: Status, b: Status)
    ensures Before(StatusText(a), StatusText(b)) <==> StatusBefore(a, b)
    ensures StatusText(a) == StatusText(b) <==> a == b
  {
    var s, t := StatusText(a), StatusText(b);
    assert "Failed"[0] == 'F' && "Panicked"[0] == 'P' && "Unknown"[0] == 'U';
    assert "Skipped"[0] == 'S' && "Skipped"[1] == 'k' && "Succeeded"[0] == 'S' && "Succeeded"[1] == 'u';
    if s[0] != t[0] {
      BeforeAtFirst(s, t);
    } else {
      BeforeBehind(s, t);
      if s[1] != t[1] { BeforeAtFirst(s[1..], t[1..]); } else { NotBefore(s); }
    }
  }

  lemma NotBefore(s: string)
    ensures !Before(s, s)
  {
  }

  /** Results are ordered by name, then by status, then by panic stack. */
  lemma CompareResultsOrder(a: ControllerRunResult, b: ControllerRunResult)
    ensures CompareResults(a, b) < 0 <==>
            || Before(a.name, b.name)
            || (a.name == b.name && StatusBefore(a.status, b.status))
            || (a.name == b.name && a.status == b.status && Before(a.panicStack, b.panicStack))
  {
    hide Compare, StatusText, Before, StatusBefore;
    CompareIsByteOrder(a.name, b.name);
    CompareIsByteOrder(StatusText(a.status), StatusText(b.status));
    CompareIsByteOrder(a.panicStack, b.panicStack);
    CompareZero(a.name, b.name);
    CompareZero(StatusText(a.status), StatusText(b.status));
    StatusTextOrder(a.status, b.status);
    StatusAndName(a, b);
  }

  lemma StatusAndName(a: ControllerRunResult, b: ControllerRunResult)
    ensures Before(a.name, b.name) ==> a.name != b.name
    ensures StatusBefore(a.status, b.status) ==> a.status != b.status
  {
  }

  function Canonical(results: seq<ControllerRunResult>): seq<ControllerRunResult>
  {
    Sort(results, CompareResults)
  }

  predicate Decides(flag: string, name: string)
  {
    flag == name || flag == "-" + name
  }

  /** The first flag that names the controller, plainly or with a minus, decides; without one, "*" enables all. */
  predicate Enabled(name: string, flags: seq<string>)
  {
    || (exists i :: 0 <= i < |flags| && flags[i] == name && forall j :: 0 <= j < i ==> !Decides(flags[j], name))
    || ((forall i :: 0 <= i < |flags| ==> !Decides(flags[i], name)) && "*" in flags)
  }

  method IsControllerEnabled(name: string, flags: seq<string>) returns (enabled: bool)
    ensures enabled <==> Enabled(name, flags)
  {
    var hasStar := false;
    for i := 0 to |flags|
      invariant forall j :: 0 <= j < i ==> !Decides(flags[j], name)
      invariant hasStar <==> "*" in flags[..i]
    {
      if flags[i] == name {
        return true;
      }
      if flags[i] == "-" + name {
        assert Decides(flags[i], name) && |"-" + name| == |name| + 1;
        return false;
      }
      if flags[i] == "*" {
        hasStar := true;
      }
    }
    assert flags[..|flags|] == flags;
    return hasStar;
  }

  predicate Mentioned(name: string, flags: seq<string>)
  {
    name in flags || ("-" + name) in flags
  }

  /** Which controllers run, flag by flag: the first mention enables with the name and disables with a minus in front;
      without a mention the star decides. */
  lemma EnabledExactly(name: string, flags: seq<string>, before: seq<string>, after: seq<string>)
    ensures flags == before + [name] + after && !Mentioned(name, before) ==> Enabled(name, flags)
    ensures flags == before + ["-" + name] + after && !Mentioned(name, before) ==> !Enabled(name, flags)
    ensures !Mentioned(name, flags) ==> (Enabled(name, flags) <==> "*" in flags)
  {
    var n := |before|;
    assert |"-" + name| == |name| + 1;
    if n < |flags| && flags == before + [flags[n]] + after && !Mentioned(name, before) {
      forall j | 0 <= j < n ensures !Decides(flags[j], name) { assert flags[j] == before[j]; }
      assert flags[n] == "-" + name ==> Decides(flags[n], name);
    }
    assert (before + [name] + after)[n] == name && (before + ["-" + name] + after)[n] == "-" + name;
  }

  /** The unknown names among the flags, one per flag, in order. */
  function UnknownFlags(known: set<string>, flags: seq<string>): seq<string>
  {
    if flags == [] then []
    else
      var last := flags[|flags| - 1];
      UnknownFlags(known, flags[..|flags| - 1]) +
      if last != "*" && TrimPrefix(last, "-") !in known then [TrimPrefix(last, "-")] else []
  }

  method ValidateControllersFromFlags(known: set<string>, flags: seq<string>) returns (unknown: seq<string>)
    ensures unknown == UnknownFlags(known, flags)
    ensures unknown == [] <==> forall f :: f in flags ==> f == "*" || TrimPrefix(f, "-") in known
  {
    unknown := [];
    for i := 0 to |flags|
      invariant unknown == UnknownFlags(known, flags[..i])
      invariant unknown == [] <==> forall j :: 0 <= j < i ==> flags[j] == "*" || TrimPrefix(flags[j], "-") in known
    {
      assert flags[..i + 1][..i] == flags[..i];
      if flags[i] == "*" {
        continue;
      }
      var name := TrimPrefix(flags[i], "-");
      if name !in known {
        unknown := unknown + [name];
      }
    }
    assert flags[..|flags|] == flags;
  }

  function Names(cs: seq<Controller>): seq<string>
  {
    seq(|cs|, i requires 0 <= i < |cs| => cs[i].name)
  }

  /** Every name that occurred before, once per repetition. */
  function Repeats(names: seq<string>): seq<string>
  {
    if names == [] then []
    else
      var last := names[|names| - 1];
      Repeats(names[..|names| - 1]) + if last in names[..|names| - 1] then [last] else []
  }

  lemma {:induction false} RepeatsEmpty(names: seq<string>)
    ensures Repeats(names) == [] <==> Distinct(names)
  {
    if names != [] {
      var n := |names| - 1;
      RepeatsEmpty(names[..n]);
      if Distinct(names[..n]) && names[n] !in names[..n] {
        forall i, j | 0 <= i < j < |names| ensures names[i] != names[j] {
          assert names[i] == names[..n][i];
          if j < n { assert names[..n][j] == names[j]; }
        }
      }
    }
  }

  lemma NoNames()
    ensures Names([]) == [] && Repeats([]) == []
  {
  }

  lemma NamesStep(cs: seq<Controller>, i: nat)
    requires i < |cs|
    ensures Names(cs[..i + 1]) == Names(cs[..i]) + [cs[i].name]
  {
  }

  lemma RepeatsStep(names: seq<string>, name: string)
    ensures Repeats(names + [name]) == Repeats(names) + if name in names then [name] else []
  {
    assert (names + [name])[..|names|] == names;
  }

  method FindDuplicates(controllers: array<Controller>) returns (known: set<string>, duplicates: seq<string>)
    ensures known == set n | n in Names(controllers[..])
    ensures duplicates == Repeats(Names(controllers[..]))
  {
    hide Names, Repeats;
    known, duplicates := {}, [];
    assert Names([]) == [] && Repeats([]) == [] by { NoNames(); }
    for i := 0 to controllers.Length
      invariant known == set n | n in Names(controllers[..i])
      invariant duplicates == Repeats(Names(controllers[..i]))
    {
      var name := controllers[i].name;
      NamesStep(controllers[..], i);
      RepeatsStep(Names(controllers[..i]), name);
      if name in known {
        duplicates := duplicates + [name];
        continue;
      }
      known := known + {name};
    }
    assert controllers[..controllers.Length] == controllers[..];
  }

  function ResultOf(c: Controller, flags: seq<string>): ControllerRunResult
  {
    if !Enabled(c.name, flags) then ControllerRunResult(c.name, Skipped, None, "")
    else match c.outcome
         case Returns => ControllerRunResult(c.name, Succeeded, None, "")
         case ReturnsError(message) => ControllerRunResult(c.name, Failed, Some([message]), "")
         case Panics(stack) => ControllerRunResult(c.name, Panicked, None, stack)
  }

  /** The controller runs, and returns an error with the message. */
  predicate Fails(c: Controller, flags: seq<string>, message: string)
  {
    Enabled(c.name, flags) && c.outcome == ReturnsError(message)
  }

  /** The result says of the controller what became of it, field by field. */
  ghost predicate Reported(c: Controller, flags: seq<string>, r: ControllerRunResult)
  {
    var enabled := Enabled(c.name, flags);
    && r.name == c.name
    && (r.status == Skipped <==> !enabled)
    && (r.status == Succeeded <==> enabled && c.outcome == Returns)
    && (r.status == Failed <==> enabled && c.outcome.ReturnsError?)
    && (r.status == Panicked <==> enabled && c.outcome.Panics?)
    && (forall message :: r.errors == Some([message]) <==> Fails(c, flags, message))
    && (r.errors == None <==> r.status != Failed)
    && (forall stack :: enabled && c.outcome == Panics(stack) ==> r.panicStack == stack)
    && (r.status != Panicked ==> r.panicStack == "")
  }

  lemma ResultReported(c: Controller, flags: seq<string>)
    ensures Reported(c, flags, ResultOf(c, flags))
  {
    hide Enabled;
    if Enabled(c.name, flags) && c.outcome.ReturnsError? {
      assert forall message: string :: [c.outcome.message] == [message] ==>
               [c.outcome.message][0] == [message][0];
    }
  }

  function ErrorsOf(c: Controller, flags: seq<string>): seq<RunError>
  {
    if Enabled(c.name, flags) && c.outcome.ReturnsError? then [RunError(c.name, c.outcome.message)] else []
  }

  function Results(cs: seq<Controller>, flags: seq<string>): seq<ControllerRunResult>
  {
    if cs == [] then [] else Results(cs[..|cs| - 1], flags) + [ResultOf(cs[|cs| - 1], flags)]
  }

  function Errors(cs: seq<Controller>, flags: seq<string>): seq<RunError>
  {
    if cs == [] then [] else Errors(cs[..|cs| - 1], flags) + ErrorsOf(cs[|cs| - 1], flags)
  }

  /** The requests that the controllers make: those of the enabled ones, in run order. */
  function Made(cs: seq<Controller>, flags: seq<string>): seq<Requests.Request>
  {
    if cs == [] then [] else Made(cs[..|cs| - 1], flags) + MadeBy(cs[|cs| - 1], flags)
  }

  function MadeBy(c: Controller, flags: seq<string>): seq<Requests.Request>
  {
    if Enabled(c.name, flags) then c.requests else []
  }

  method TrackRequests(tracker: Requests.AllActionsTracker, requests: seq<Requests.Request>)
    requires tracker.Valid()
    modifies tracker
    ensures tracker.Valid() && tracker.actionToTracker == Requests.Track(old(tracker.actionToTracker), requests)
  {
    hide Requests.Count, Requests.Filed, Requests.File;
    for i := 0 to |requests|
      invariant tracker.Valid()
      invariant tracker.actionToTracker == Requests.Track(old(tracker.actionToTracker), requests[..i])
    {
      assert requests[..i + 1][..i] == requests[..i];
      tracker.AddRequest(requests[i]);
    }
    assert requests[..|requests|] == requests;
  }

  /** One controller: the result starts as Unknown, and the deferred function records a panic and appends it. What it
      requested before failing or panicking stays tracked. */
  method RunController(c: Controller, flags: seq<string>, tracker: Requests.AllActionsTracker)
    returns (result: ControllerRunResult, errs: seq<RunError>)
    requires tracker.Valid()
    modifies tracker
    ensures tracker.Valid() && tracker.actionToTracker == Requests.Track(old(tracker.actionToTracker), MadeBy(c, flags))
    ensures result == ResultOf(c, flags) && Reported(c, flags, result)
    ensures errs == ErrorsOf(c, flags) && |errs| <= 1
    ensures forall e :: e in errs <==> e.name == c.name && Fails(c, flags, e.message)
  {
    result, errs := ControllerRunResult(c.name, Unknown, None, ""), [];
    ResultReported(c, flags);
    hide Enabled, Reported;
    var enabled := IsControllerEnabled(c.name, flags);
    if !enabled {
      result := result.(status := Skipped);
      return;
    }
    TrackRequests(tracker, c.requests);
    match c.outcome {
      case ReturnsError(message) =>
        result := result.(status := Failed);
        result := result.(errors := Append(result.errors, message));
        assert result.errors.value == [message];
        errs := errs + [RunError(c.name, message)];
      case Returns =>
        result := result.(status := Succeeded);
      case Panics(stack) =>
        result := result.(status := Panicked, panicStack := stack);
    }
  }

  /** `rand.Shuffle`: some permutation in place. */
  method ShuffleNamedRunOnce(controllers: array<Controller>)
    modifies controllers
    ensures multiset(controllers[..]) == multiset(old(controllers[..]))
  {
    var i := controllers.Length - 1;
    while i > 0
      invariant i < controllers.Length
      invariant multiset(controllers[..]) == multiset(old(controllers[..]))
    {
      var j :| 0 <= j <= i;
      controllers[i], controllers[j] := controllers[j], controllers[i];
      i := i - 1;
    }
  }

  datatype RunOutcome =
    | DuplicateControllers(names: seq<string>)
    | UnknownControllers(names: seq<string>)
    | Ran(result: ApplyConfigurationRunResult, errs: seq<RunError>)

  /** Why a run is refused, if it is. */
  function Refusal(cs: seq<Controller>, flags: seq<string>): Option<RunOutcome>
  {
    var known := set n | n in Names(cs);
    if Repeats(Names(cs)) != [] then Some(DuplicateControllers(Repeats(Names(cs))))
    else if UnknownFlags(known, flags) != [] then Some(UnknownControllers(UnknownFlags(known, flags)))
    else None
  }

  /** The flag names the controller, with or without a minus in front. A name that starts with a minus itself can only
      be given with another. */
  predicate NamedBy(flag: string, name: string)
  {
    flag == "-" + name || (flag == name && !("-" <= flag))
  }

  /** The flag is the star or names a controller. */
  predicate KnownFlag(flag: string, cs: seq<Controller>)
  {
    flag == "*" || exists c :: c in cs && NamedBy(flag, c.name)
  }

  lemma TrimmedIsNamed(flag: string, name: string)
    ensures TrimPrefix(flag, "-") == name <==> NamedBy(flag, name)
  {
    if "-" <= flag { assert flag == "-" + flag[1..]; }
    if flag == "-" + name { assert flag[1..] == name; }
  }

  /** What is reported of the flags: one name for each that is neither the star nor that of a known name. */
  lemma {:induction false} UnknownFlagsIn(known: set<string>, flags: seq<string>, name: string)
    ensures name in UnknownFlags(known, flags) <==>
            name !in known && exists f :: f in flags && f != "*" && NamedBy(f, name)
    ensures |UnknownFlags(known, flags)| <= |flags|
  {
    hide NamedBy, TrimPrefix;
    if flags != [] {
      var init, last := flags[..|flags| - 1], flags[|flags| - 1];
      assert flags == init + [last];
      UnknownFlagsIn(known, init, name);
      TrimmedIsNamed(last, name);
    }
  }

  lemma {:induction false} RepeatsCount(names: seq<string>, name: string)
    ensures multiset(Repeats(names))[name] == if name in names then multiset(names)[name] - 1 else 0
  {
    if names != [] {
      var init, last := names[..|names| - 1], names[|names| - 1];
      assert names == init + [last];
      RepeatsCount(init, name);
    }
  }

  /** A run is refused exactly for a repeated name or a flag that names no controller; the repeated names are reported
      once per repetition, else the unknown ones. */
  lemma RefusedExactly(cs: seq<Controller>, flags: seq<string>)
    ensures Refusal(cs, flags).Some? <==>
            !Distinct(Names(cs)) || exists f :: f in flags && !KnownFlag(f, cs)
    ensures !Distinct(Names(cs)) <==> Refusal(cs, flags).Some? && Refusal(cs, flags).value.DuplicateControllers?
    ensures !Distinct(Names(cs)) ==>
              forall n :: multiset(Refusal(cs, flags).value.names)[n] ==
                          if n in Names(cs) then multiset(Names(cs))[n] - 1 else 0
    ensures Distinct(Names(cs)) && Refusal(cs, flags).Some? ==>
              forall n :: n in Refusal(cs, flags).value.names <==>
                          n !in Names(cs) && exists f :: f in flags && f != "*" && NamedBy(f, n)
  {
    hide Repeats, UnknownFlags, NamedBy, TrimPrefix;
    RepeatsEmpty(Names(cs));
    var known := set n | n in Names(cs);
    forall n { RepeatsCount(Names(cs), n); }
    UnknownFlagsEmpty(known, flags);
    forall n { UnknownFlagsIn(known, flags, n); }
    forall f ensures f == "*" || TrimPrefix(f, "-") in Names(cs) <==> KnownFlag(f, cs) { TrimmedIsKnown(f, cs); }
  }

  lemma TrimmedIsKnown(flag: string, cs: seq<Controller>)
    ensures flag == "*" || TrimPrefix(flag, "-") in Names(cs) <==> KnownFlag(flag, cs)
  {
    hide NamedBy, TrimPrefix;
    forall name { TrimmedIsNamed(flag, name); }
    if TrimPrefix(flag, "-") in Names(cs) {
      var i :| 0 <= i < |cs| && cs[i].name == TrimPrefix(flag, "-");
      assert cs[i] in cs;
    }
    if c :| c in cs && NamedBy(flag, c.name) {
      var i :| 0 <= i < |cs| && cs[i] == c;
      assert Names(cs)[i] == c.name;
    }
  }

  lemma {:induction false} UnknownFlagsEmpty(known: set<string>, flags: seq<string>)
    ensures UnknownFlags(known, flags) == [] <==> forall f :: f in flags ==> f == "*" || TrimPrefix(f, "-") in known
  {
    if flags != [] {
      UnknownFlagsEmpty(known, flags[..|flags| - 1]);
      assert flags == flags[..|flags| - 1] + [flags[|flags| - 1]];
    }
  }

  /** Whatever the shuffle does, the results are those of the registered order, canonicalized; the errors and the
      tracked requests are the same up to order, and the requests are tracked in the order of the shuffle. A refused
      run leaves controllers and tracker as they were, and returns neither results nor mutations. */
  method RunOnce(controllers: array<Controller>, flags: seq<string>, tracker: Requests.AllActionsTracker)
    returns (r: RunOutcome, mutations: Option<AllowList.Mutations>)
    requires tracker.Valid()
    modifies controllers, tracker
    ensures tracker.Valid()
    ensures multiset(controllers[..]) == multiset(old(controllers[..]))
    ensures
      var cs := old(controllers[..]);
      match Refusal(cs, flags)
      case Some(refusal) =>
        && r == refusal && mutations == None
        && controllers[..] == cs && tracker.actionToTracker == old(tracker.actionToTracker)
      case None =>
        && r.Ran?
        && r.result == ApplyConfigurationRunResult(Slice(Canonical(Results(cs, flags))))
        && multiset(r.errs) == multiset(Errors(cs, flags))
        && tracker.actionToTracker == Requests.Track(old(tracker.actionToTracker), Made(controllers[..], flags))
        && multiset(Made(controllers[..], flags)) == multiset(Made(cs, flags))
        && mutations.Some?
        && forall c: AllowList.ClusterType ::
             c in mutations.value && mutations.value[c] == AllowList.Tracking(tracker.actionToTracker)
  {
    hide Canonical, Results, Errors, Repeats, UnknownFlags, Names, Made, Requests.Track;
    ghost var cs := controllers[..];
    var known, duplicates := FindDuplicates(controllers);
    if |duplicates| > 0 {
      return DuplicateControllers(duplicates), None;
    }
    var unknown := ValidateControllersFromFlags(known, flags);
    if |unknown| > 0 {
      return UnknownControllers(unknown), None;
    }
    RepeatsEmpty(Names(cs));
    ShuffleNamedRunOnce(controllers);
    var results, errs := RunAll(controllers, flags, tracker);
    ShuffleIndependence(cs, controllers[..], flags);
    var slice := CanonicalSlice(results);
    var m := AllowList.NewApplyConfigurationFromClient(tracker);
    return Ran(ApplyConfigurationRunResult(slice), errs), Some(m);
  }

  /** The collected results as a slice, sorted in place; no results are a nil slice. */
  method CanonicalSlice(results: seq<ControllerRunResult>) returns (slice: Option<seq<ControllerRunResult>>)
    ensures slice == Slice(Canonical(results))
  {
    if |results| == 0 {
      CanonicalizeApplyConfigurationRunResult(null);
      return None;
    }
    var sorted := new ControllerRunResult[|results|](i requires 0 <= i < |results| => results[i]);
    assert sorted[..] == results;
    CanonicalizeApplyConfigurationRunResult(sorted);
    return Some(sorted[..]);
  }

  /** Nothing is done for a nil result or a nil slice. */
  method CanonicalizeApplyConfigurationRunResult(results: array?<ControllerRunResult>)
    modifies results
    ensures results != null ==> results[..] == Canonical(old(results[..]))
  {
    if results == null {
      return;
    }
    CompareResultsIsComparator();
    SortStable(results, CompareResults);
  }

  method RunAll(controllers: array<Controller>, flags: seq<string>, tracker: Requests.AllActionsTracker)
    returns (results: seq<ControllerRunResult>, errs: seq<RunError>)
    requires tracker.Valid()
    modifies tracker
    ensures tracker.Valid()
    ensures tracker.actionToTracker == Requests.Track(old(tracker.actionToTracker), Made(controllers[..], flags))
    ensures results == Results(controllers[..], flags)
    ensures errs == Errors(controllers[..], flags)
  {
    hide ResultOf, ErrorsOf, MadeBy;
    results, errs := [], [];
    for i := 0 to controllers.Length
      invariant tracker.Valid()
      invariant tracker.actionToTracker ==
                Requests.Track(old(tracker.actionToTracker), Made(controllers[..i], flags))
      invariant results == Results(controllers[..i], flags)
      invariant errs == Errors(controllers[..i], flags)
    {
      assert controllers[..i + 1][..i] == controllers[..i];
      var result, currErrs := RunController(controllers[i], flags, tracker);
      Requests.TrackAppend(
        old(tracker.actionToTracker), Made(controllers[..i], flags), MadeBy(controllers[i], flags));
      results := results + [result];
      errs := errs + currErrs;
    }
    assert controllers[..controllers.Length] == controllers[..];
  }

  lemma {:induction false} MadeAppend(a: seq<Controller>, b: seq<Controller>, flags: seq<string>)
    ensures Made(a + b, flags) == Made(a, flags) + Made(b, flags)
  {
    hide MadeBy;
    if b == [] {
      assert a + b == a;
    } else {
      var init, last := b[..|b| - 1], b[|b| - 1];
      var ab := a + b;
      assert ab[..|ab| - 1] == a + init && ab[|ab| - 1] == last;
      MadeAppend(a, init, flags);
      assert Made(ab, flags) == Made(a + init, flags) + MadeBy(last, flags);
      assert Made(b, flags) == Made(init, flags) + MadeBy(last, flags);
    }
  }

  /** Taking one controller out takes out what it requests. */
  lemma MadeWithout(ds: seq<Controller>, j: nat, flags: seq<string>)
    requires j < |ds|
    ensures
      var rest := ds[..j] + ds[j + 1..];
      && multiset(ds) == multiset(rest) + multiset{ds[j]}
      && multiset(Made(ds, flags)) == multiset(Made(rest, flags)) + multiset(MadeBy(ds[j], flags))
  {
    hide MadeBy, Made;
    assert ds == (ds[..j] + [ds[j]]) + ds[j + 1..];
    MadeAppend(ds[..j] + [ds[j]], ds[j + 1..], flags);
    MadeAppend(ds[..j], [ds[j]], flags);
    MadeAppend(ds[..j], ds[j + 1..], flags);
    MadeOne(ds[j], flags);
  }

  /** The requests made do not depend on the order of the controllers, whether or not names are distinct. */
  lemma {:induction false} SameRequestsMade(cs: seq<Controller>, ds: seq<Controller>, flags: seq<string>)
    requires multiset(cs) == multiset(ds)
    ensures multiset(Made(cs, flags)) == multiset(Made(ds, flags))
    decreases |cs|
  {
    hide MadeBy, Made;
    if cs == [] {
      assert |multiset(ds)| == 0;
    } else {
      var n := |cs| - 1;
      assert cs[n] in multiset(ds);
      var j :| 0 <= j < |ds| && ds[j] == cs[n];
      MadeWithout(cs, n, flags);
      MadeWithout(ds, j, flags);
      var init, rest := cs[..n] + cs[n + 1..], ds[..j] + ds[j + 1..];
      assert multiset(init) == multiset(cs) - multiset{cs[n]} == multiset(rest);
      SameRequestsMade(init, rest, flags);
    }
  }

  lemma MadeOne(c: Controller, flags: seq<string>)
    ensures Made([c], flags) == MadeBy(c, flags)
  {
    assert [c][..0] == [];
  }

  /** The requests made are those of the enabled controllers. */
  lemma {:induction false} MadeIn(cs: seq<Controller>, flags: seq<string>, x: Requests.Request)
    ensures x in Made(cs, flags) <==> exists c :: c in cs && Enabled(c.name, flags) && x in c.requests
  {
    hide Enabled;
    if cs != [] {
      var init, last := cs[..|cs| - 1], cs[|cs| - 1];
      assert cs == init + [last];
      MadeIn(init, flags, x);
    }
  }

  lemma {:induction false} ResultsIn(cs: seq<Controller>, flags: seq<string>)
    ensures |Results(cs, flags)| == |cs|
    ensures forall i :: 0 <= i < |cs| ==> Results(cs, flags)[i] == ResultOf(cs[i], flags)
  {
    if cs != [] {
      ResultsIn(cs[..|cs| - 1], flags);
    }
  }

  /** Errors come from the failing controllers alone, one each, in run order. */
  lemma {:induction false} ErrorsIn(cs: seq<Controller>, flags: seq<string>)
    requires Distinct(Names(cs))
    ensures forall e :: e in Errors(cs, flags) <==> exists i :: 0 <= i < |cs| && e in ErrorsOf(cs[i], flags)
    ensures Distinct(Errors(cs, flags))
  {
    if cs != [] {
      var n := |cs| - 1;
      assert Names(cs)[..n] == Names(cs[..n]);
      ErrorsIn(cs[..n], flags);
      var before := Errors(cs[..n], flags);
      forall k | 0 <= k < |before| ensures before[k] !in ErrorsOf(cs[n], flags) {
        assert before[k] in before;
        var i :| 0 <= i < n && before[k] in ErrorsOf(cs[..n][i], flags);
        assert Names(cs)[i] != Names(cs)[n];
      }
      assert forall i :: 0 <= i < n ==> cs[..n][i] == cs[i];
    }
  }

  lemma SameController(cs: seq<Controller>, i: nat, j: nat)
    requires Distinct(Names(cs)) && i < |cs| && j < |cs| && cs[i].name == cs[j].name
    ensures i == j
  {
    assert Names(cs)[i] == Names(cs)[j];
  }

  lemma DistinctControllers(cs: seq<Controller>)
    requires Distinct(Names(cs))
    ensures Distinct(cs)
  {
    forall i, j | 0 <= i < j < |cs| ensures cs[i] != cs[j] { assert Names(cs)[i] != Names(cs)[j]; }
  }

  lemma PermutationDistinct(cs: seq<Controller>, ds: seq<Controller>)
    requires multiset(cs) == multiset(ds) && Distinct(Names(cs))
    ensures Distinct(Names(ds))
    ensures forall c :: c in cs <==> c in ds
  {
    DistinctControllers(cs);
    PermutationElements(cs, ds);
    forall i, j | 0 <= i < j < |ds| ensures Names(ds)[i] != Names(ds)[j] {
      assert ds[i] in cs && ds[j] in cs;
      var a :| 0 <= a < |cs| && cs[a] == ds[i];
      var b :| 0 <= b < |cs| && cs[b] == ds[j];
      assert ds[i] != ds[j];
      assert Names(cs)[a] != Names(cs)[b];
    }
  }

  lemma TiedName(t: ControllerRunResult, a: ControllerRunResult)
    requires Tied(t, CompareResults)(a)
    ensures t.name == a.name
  {
    assert CompareResults(t, a) <= 0 && CompareResults(a, t) <= 0;
    CompareAntisymmetric(t.name, a.name);
    CompareZero(t.name, a.name);
  }

  lemma ResultNamed(cs: seq<Controller>, flags: seq<string>, r: ControllerRunResult) returns (i: nat)
    requires r in Results(cs, flags)
    ensures i < |cs| && r == ResultOf(cs[i], flags) && cs[i].name == r.name
  {
    hide ResultOf, Results;
    ResultsIn(cs, flags);
    i :| 0 <= i < |cs| && Results(cs, flags)[i] == r;
    ResultKeepsName(cs[i], flags);
  }

  lemma ResultKeepsName(c: Controller, flags: seq<string>)
    ensures ResultOf(c, flags).name == c.name
  {
  }

  /** With distinct names, a name has one result. */
  lemma ResultByName(cs: seq<Controller>, flags: seq<string>, a: ControllerRunResult, b: ControllerRunResult)
    requires Distinct(Names(cs)) && a in Results(cs, flags) && b in Results(cs, flags) && a.name == b.name
    ensures a == b
  {
    var i := ResultNamed(cs, flags, a);
    var j := ResultNamed(cs, flags, b);
    SameController(cs, i, j);
  }

  /** With distinct names a result is tied with no other result. */
  lemma TiesAreTheResult(cs: seq<Controller>, flags: seq<string>, t: ControllerRunResult, r: ControllerRunResult)
    requires Distinct(Names(cs)) && r in Results(cs, flags) && Tied(t, CompareResults)(r)
    ensures Filter(Results(cs, flags), Tied(t, CompareResults)) == [r]
  {
    hide CompareResults, ResultOf;
    var rs, tied := Results(cs, flags), Tied(t, CompareResults);
    DistinctResults(cs, flags);
    forall x | x in rs && tied(x) ensures x == r {
      TiedName(t, r);
      TiedName(t, x);
      ResultByName(cs, flags, x, r);
    }
    FilterUnique(rs, tied, r);
  }

  lemma DistinctResults(cs: seq<Controller>, flags: seq<string>)
    requires Distinct(Names(cs))
    ensures Distinct(Results(cs, flags))
  {
    ResultsIn(cs, flags);
    forall i, j | 0 <= i < j < |cs| ensures Results(cs, flags)[i] != Results(cs, flags)[j] {
      if ResultOf(cs[i], flags) == ResultOf(cs[j], flags) { SameController(cs, i, j); }
    }
  }

  lemma SameResults(cs: seq<Controller>, ds: seq<Controller>, flags: seq<string>)
    requires forall c :: c in cs <==> c in ds
    ensures forall r :: r in Results(cs, flags) ==> r in Results(ds, flags)
  {
    ResultsIn(cs, flags);
    ResultsIn(ds, flags);
    forall r | r in Results(cs, flags) ensures r in Results(ds, flags) {
      var i :| 0 <= i < |cs| && Results(cs, flags)[i] == r;
      assert cs[i] in cs;
      var j :| 0 <= j < |ds| && ds[j] == cs[i];
      assert Results(ds, flags)[j] == r;
    }
  }

  lemma SameErrors(cs: seq<Controller>, ds: seq<Controller>, flags: seq<string>)
    requires Distinct(Names(cs)) && Distinct(Names(ds)) && forall c :: c in cs <==> c in ds
    ensures forall e :: e in Errors(cs, flags) ==> e in Errors(ds, flags)
  {
    ErrorsIn(cs, flags);
    ErrorsIn(ds, flags);
    forall e | e in Errors(cs, flags) ensures e in Errors(ds, flags) {
      var i :| 0 <= i < |cs| && e in ErrorsOf(cs[i], flags);
      assert cs[i] in cs;
      var j :| 0 <= j < |ds| && ds[j] == cs[i];
    }
  }

  /** Shuffle independence: for any two orders of the same distinctly named controllers the canonical results are the
      same sequence, and the errors and the requests made are the same multisets. */
  lemma ShuffleIndependence(cs: seq<Controller>, ds: seq<Controller>, flags: seq<string>)
    requires multiset(cs) == multiset(ds) && Distinct(Names(cs))
    ensures Canonical(Results(cs, flags)) == Canonical(Results(ds, flags))
    ensures multiset(Errors(cs, flags)) == multiset(Errors(ds, flags))
    ensures multiset(Made(cs, flags)) == multiset(Made(ds, flags))
  {
    SameRequestsMade(cs, ds, flags);
    PermutationDistinct(cs, ds);
    SameResults(cs, ds, flags);
    SameResults(ds, cs, flags);
    SameErrors(cs, ds, flags);
    SameErrors(ds, cs, flags);
    ErrorsIn(cs, flags);
    ErrorsIn(ds, flags);
    DistinctPermutation(Errors(cs, flags), Errors(ds, flags));
    CompareResultsIsComparator();
    SortIsStableSort(Results(cs, flags), CompareResults);
    SortIsStableSort(Results(ds, flags), CompareResults);
    forall t
      ensures Filter(Results(cs, flags), Tied(t, CompareResults)) ==
              Filter(Results(ds, flags), Tied(t, CompareResults))
    {
      SameTies(cs, ds, flags, t);
    }
    TiesDetermine(Canonical(Results(cs, flags)), Canonical(Results(ds, flags)), CompareResults);
  }

  lemma SameTies(cs: seq<Controller>, ds: seq<Controller>, flags: seq<string>, t: ControllerRunResult)
    requires Distinct(Names(cs)) && Distinct(Names(ds))
    requires forall r :: r in Results(cs, flags) <==> r in Results(ds, flags)
    ensures Filter(Results(cs, flags), Tied(t, CompareResults)) == Filter(Results(ds, flags), Tied(t, CompareResults))
  {
    hide CompareResults;
    if r :| r in Results(cs, flags) && Tied(t, CompareResults)(r) {
      TiesAreTheResult(cs, flags, t, r);
      TiesAreTheResult(ds, flags, t, r);
    } else {
      FilterNothing(Results(cs, flags), Tied(t, CompareResults));
      FilterNothing(Results(ds, flags), Tied(t, CompareResults));
    }
  }

  /** There is a result that says of the controller what became of it. */
  ghost predicate HasResult(results: seq<ControllerRunResult>, c: Controller, flags: seq<string>)
  {
    exists r :: r in results && Reported(c, flags, r)
  }

  /** The result says of some controller what became of it. */
  ghost predicate IsResult(r: ControllerRunResult, cs: seq<Controller>, flags: seq<string>)
  {
    exists c :: c in cs && Reported(c, flags, r)
  }

  /** The canonical results are one per controller, and say of each controller, field by field, what became of it. */
  lemma ResultsReported(cs: seq<Controller>, flags: seq<string>)
    ensures |Canonical(Results(cs, flags))| == |cs|
    ensures forall c :: c in cs ==> HasResult(Canonical(Results(cs, flags)), c, flags)
    ensures forall r :: r in Canonical(Results(cs, flags)) ==> IsResult(r, cs, flags)
  {
    hide ResultOf, Reported, Results, Canonical;
    var raw := Results(cs, flags);
    var results := Canonical(raw);
    CanonicalPermutes(raw);
    ResultsIn(cs, flags);
    assert |results| == |multiset(results)| == |multiset(raw)| == |raw|;
    PermutationElements(raw, results);
    forall r | r in results ensures IsResult(r, cs, flags) {
      var i := ResultNamed(cs, flags, r);
      ResultReported(cs[i], flags);
      assert cs[i] in cs;
    }
    forall c | c in cs ensures HasResult(results, c, flags) {
      var i :| 0 <= i < |cs| && cs[i] == c;
      ResultReported(c, flags);
      assert raw[i] in raw;
    }
  }

  lemma CanonicalPermutes(raw: seq<ControllerRunResult>)
    ensures multiset(Canonical(raw)) == multiset(raw)
    ensures Ascending(Canonical(raw), CompareResults)
  {
    CompareResultsIsComparator();
    SortIsStableSort(raw, CompareResults);
  }

  lemma ResultsAscend(cs: seq<Controller>, flags: seq<string>)
    requires Distinct(Names(cs))
    ensures
      var results := Canonical(Results(cs, flags));
      forall i, j :: 0 <= i < j < |results| ==> Before(results[i].name, results[j].name)
  {
    hide ResultOf, CompareResults, Before, Results, Canonical, Names;
    var raw := Results(cs, flags);
    var results := Canonical(raw);
    CanonicalPermutes(raw);
    DistinctResults(cs, flags);
    PermutationElements(raw, results);
    forall i, j | 0 <= i < j < |results| ensures Before(results[i].name, results[j].name) {
      assert results[i] in results && results[j] in results && results[i] != results[j];
      AscendingNames(cs, flags, results[i], results[j]);
    }
  }

  /** The errors are those of the controllers that failed, once each. */
  lemma ErrorsExactly(cs: seq<Controller>, flags: seq<string>)
    requires Distinct(Names(cs))
    ensures Distinct(Errors(cs, flags))
    ensures forall e :: e in Errors(cs, flags) <==>
            exists c :: c in cs && c.name == e.name && Fails(c, flags, e.message)
  {
    hide Errors, ErrorsOf, Names, Fails;
    ErrorsIn(cs, flags);
    forall e ensures e in Errors(cs, flags) <==> exists c :: c in cs && c.name == e.name && Fails(c, flags, e.message) {
      ErrorFrom(cs, flags, e);
    }
  }

  /** Accounting of a run: the canonical results are one per controller, in strictly ascending order of their names,
      and say of each controller, field by field, what became of it; the errors are those of the controllers that
      failed, once each; and only without controllers is the slice of results nil. */
  lemma RunAccounting(cs: seq<Controller>, flags: seq<string>)
    requires Distinct(Names(cs))
    ensures
      var results := Canonical(Results(cs, flags));
      && |results| == |cs|
      && (forall i, j :: 0 <= i < j < |results| ==> Before(results[i].name, results[j].name))
      && (forall c :: c in cs ==> HasResult(results, c, flags))
      && (forall r :: r in results ==> IsResult(r, cs, flags))
      && (if cs == [] then Slice(results) == None else Slice(results) == Some(results))
    ensures Distinct(Errors(cs, flags))
    ensures forall e :: e in Errors(cs, flags) <==>
            exists c :: c in cs && c.name == e.name && Fails(c, flags, e.message)
  {
    hide Before, HasResult, IsResult, Results, Errors, Names, Canonical, Fails, Distinct;
    ResultsReported(cs, flags);
    ResultsAscend(cs, flags);
    ErrorsExactly(cs, flags);
  }

  lemma ErrorFrom(cs: seq<Controller>, flags: seq<string>, e: RunError)
    ensures (exists i :: 0 <= i < |cs| && e in ErrorsOf(cs[i], flags)) <==>
            exists c :: c in cs && c.name == e.name && Fails(c, flags, e.message)
  {
    hide Enabled;
    if i :| 0 <= i < |cs| && e in ErrorsOf(cs[i], flags) { assert cs[i] in cs && Fails(cs[i], flags, e.message); }
    if c :| c in cs && c.name == e.name && Fails(c, flags, e.message) {
      var i :| 0 <= i < |cs| && cs[i] == c;
      assert e in ErrorsOf(cs[i], flags);
    }
  }

  lemma AscendingNames(cs: seq<Controller>, flags: seq<string>, a: ControllerRunResult, b: ControllerRunResult)
    requires Distinct(Names(cs)) && a in Results(cs, flags) && b in Results(cs, flags) && a != b
    requires CompareResults(a, b) <= 0
    ensures Before(a.name, b.name)
  {
    CompareZero(a.name, b.name);
    CompareIsByteOrder(a.name, b.name);
    if a.name == b.name { ResultByName(cs, flags, a, b); }
  }

  /** Without the duplicate check the result would depend on the shuffle: the comparator does not see error details. */
  lemma DuplicateNamesAreNotCanonical(name: string, m1: string, m2: string)
    requires m1 != m2
    ensures
      var a, b := Controller(name, [], ReturnsError(m1)), Controller(name, [], ReturnsError(m2));
      && multiset([a, b]) == multiset([b, a])
      && Canonical(Results([a, b], [name])) != Canonical(Results([b, a], [name]))
  {
    var a, b := Controller(name, [], ReturnsError(m1)), Controller(name, [], ReturnsError(m2));
    var flags := [name];
    assert flags[0] == name;
    assert Enabled(name, flags);
    var ra, rb := ControllerRunResult(name, Failed, Some([m1]), ""), ControllerRunResult(name, Failed, Some([m2]), "");
    CanonicalOfTied(a, b, flags, ra, rb);
    CanonicalOfTied(b, a, flags, rb, ra);
    assert ra.errors.value[0] != rb.errors.value[0];
  }

  lemma CanonicalOfTied(
    a: Controller, b: Controller, flags: seq<string>, ra: ControllerRunResult, rb: ControllerRunResult)
    requires ra == ResultOf(a, flags) && rb == ResultOf(b, flags)
    requires ra.name == rb.name && ra.status == rb.status && ra.panicStack == rb.panicStack
    ensures Canonical(Results([a, b], flags)) == [ra, rb]
  {
    assert [a, b][..1] == [a] && [a][..0] == [];
    assert Results([a], flags) == [ra] && Results([a, b], flags) == [ra, rb];
    assert [ra, rb][..1] == [ra] && [ra][..0] == [];
    CompareZero(ra.name, rb.name);
    CompareZero(StatusText(ra.status), StatusText(rb.status));
    CompareZero(ra.panicStack, rb.panicStack);
    assert Sort([ra], CompareResults) == [ra];
    assert Insert([ra], rb, CompareResults) == [ra, rb];
  }
}
