/** equivalence.go: explaining how the requests of two sides differ, events aside. */
module RequestDiff {
  import opened Seqs
  import opened Kube
  import opened Requests
  import opened AllowList

  /** What the YAML of a request's options and body yields; None where it does not parse. */
  datatype Parser = Parser(fieldManager: string -> Option<string>, annotations: string -> Option<map<string, string>>)

  datatype ExpandedMetadata = ExpandedMetadata(metadata: Metadata, fieldManager: string, controllerInstanceName: string)

  const SYNTHETIC_CONTROLLER := "synthetic.mom.openshift.io/controller-instance-name"
  const OPERATOR_CONTROLLER := "operator.openshift.io/controller-instance-name"

  predicate IsApply(r: Request)
  {
    r.metadata.action == "Apply" || r.metadata.action == "ApplyStatus"
  }

  function Annotation(annotations: map<string, string>, key: string): string
  {
    if key in annotations then annotations[key] else ""
  }

  /** The operator's annotation wins over the synthetic one; what does not parse counts as absent. */
  function Expand(p: Parser, r: Request): ExpandedMetadata
  {
    var fieldManager := if IsApply(r) && p.fieldManager(r.options).Some? then p.fieldManager(r.options).value else "";
    var annotations := if p.annotations(r.body).Some? then p.annotations(r.body).value else map[];
    var controller :=
      if Annotation(annotations, OPERATOR_CONTROLLER) != "" then Annotation(annotations, OPERATOR_CONTROLLER)
      else Annotation(annotations, SYNTHETIC_CONTROLLER);
    ExpandedMetadata(r.metadata, fieldManager, controller)
  }

  method ExpandedMetadataFor(p: Parser, r: Request) returns (e: ExpandedMetadata)
    ensures e == Expand(p, r)
  {
    var fieldManager := "";
    var controllerInstanceName := "";
    if IsApply(r) {
      var options := p.fieldManager(r.options);
      if options.Some? {
        fieldManager := options.value;
      }
    }
    var body := p.annotations(r.body);
    if body.Some? {
      if |Annotation(body.value, SYNTHETIC_CONTROLLER)| > 0 {
        controllerInstanceName := Annotation(body.value, SYNTHETIC_CONTROLLER);
      }
      if |Annotation(body.value, OPERATOR_CONTROLLER)| > 0 {
        controllerInstanceName := Annotation(body.value, OPERATOR_CONTROLLER);
      }
    }
    e := ExpandedMetadata(r.metadata, fieldManager, controllerInstanceName);
  }

  /** The body carries the annotation, with a value. */
  predicate Annotated(p: Parser, r: Request, key: string, value: string)
  {
    && value != "" && p.annotations(r.body).Some?
    && key in p.annotations(r.body).value && p.annotations(r.body).value[key] == value
  }

  /** What is known of a request beyond its metadata: the field manager for the two applies, and the controller, which
      the operator's own annotation names before the synthetic one. */
  lemma ExpandExactly(p: Parser, r: Request)
    ensures Expand(p, r).metadata == r.metadata
    ensures
      var known := if r.metadata.action in ["Apply", "ApplyStatus"] then p.fieldManager(r.options) else None;
      Expand(p, r).fieldManager == if known.Some? then known.value else ""
    ensures
      var operator, synthetic :=
        "operator.openshift.io/controller-instance-name", "synthetic.mom.openshift.io/controller-instance-name";
      var controller := Expand(p, r).controllerInstanceName;
      && (forall c :: Annotated(p, r, operator, c) ==> controller == c)
      && (forall c :: Annotated(p, r, synthetic, c) && (forall d :: !Annotated(p, r, operator, d)) ==> controller == c)
      && (controller != "" ==> Annotated(p, r, operator, controller) || Annotated(p, r, synthetic, controller))
  {
    if p.annotations(r.body).Some? {
      var annotations := p.annotations(r.body).value;
      if OPERATOR_CONTROLLER in annotations && annotations[OPERATOR_CONTROLLER] != "" {
        assert Annotated(p, r, OPERATOR_CONTROLLER, annotations[OPERATOR_CONTROLLER]);
      }
    }
  }

  /** The side on which something is missing or different. */
  datatype Side = Lhs | Rhs

  datatype Reason =
    | NilSide(side: Side)
    | Missing(side: Side, subject: Request)
    | BodyDiffers(side: Side, subject: Request, index: nat)
    | OptionsDiffer(side: Side, subject: Request, index: nat)
    | MissingEquivalent(side: Side, subject: Request)

  /** The mismatch between a request and one of the same metadata. Applies with different options are incomparable. */
  function MismatchAt(side: Side, source: Request, destinations: seq<Request>): nat -> seq<Reason>
  {
    (i: nat) =>
      if i >= |destinations| then []
      else if IsApply(source) && source.options != destinations[i].options then []
      else (if source.body != destinations[i].body then [BodyDiffers(side, source, i)] else []) +
           (if source.options != destinations[i].options then [OptionsDiffer(side, source, i)] else [])
  }

  function ReasonFor(side: Side, source: Request, all: seq<Request>): seq<Reason>
  {
    var destinations := Filter(all, OfMetadata(source.metadata));
    if destinations == [] then [Missing(side, source)]
    else if source in destinations then []
    else
      var mismatches := Collect(|destinations|, MismatchAt(side, source, destinations));
      if mismatches == [] then [MissingEquivalent(side, source)] else mismatches
  }

  function ReasonForAt(side: Side, sources: seq<Request>, all: seq<Request>): nat -> seq<Reason>
  {
    (i: nat) => if i < |sources| then ReasonFor(side, sources[i], all) else []
  }

  function ReasonsForDiff(side: Side, sources: seq<Request>, all: seq<Request>): seq<Reason>
  {
    Collect(|sources|, ReasonForAt(side, sources, all))
  }

  /** The comparison of a request with a destination it is not equivalent to. */
  method CompareWith(side: Side, source: Request, destinations: seq<Request>, i: nat) returns (reasons: seq<Reason>)
    requires i < |destinations|
    ensures reasons == MismatchAt(side, source, destinations)(i)
  {
    reasons := [];
    if IsApply(source) {
      if source.options != destinations[i].options {
        return;
      }
    }
    if source.body != destinations[i].body {
      reasons := reasons + [BodyDiffers(side, source, i)];
    }
    if source.options != destinations[i].options {
      reasons := reasons + [OptionsDiffer(side, source, i)];
    }
  }

  method ReasonForRequest(side: Side, source: Request, all: seq<Request>) returns (reasons: seq<Reason>)
    ensures reasons == ReasonFor(side, source, all)
  {
    var destinations := RequestsForResource(all, source.metadata);
    if |destinations| == 0 {
      return [Missing(side, source)];
    }
    var found, mismatchReasons := CompareWithAll(side, source, destinations);
    if found {
      return [];
    }
    if |mismatchReasons| == 0 {
      mismatchReasons := mismatchReasons + [MissingEquivalent(side, source)];
    }
    return mismatchReasons;
  }

  /** Stops at the first equivalent destination, forgetting the mismatches collected before it. */
  method CompareWithAll(side: Side, source: Request, destinations: seq<Request>)
    returns (found: bool, mismatchReasons: seq<Reason>)
    ensures found <==> source in destinations
    ensures mismatchReasons == if found then [] else Collect(|destinations|, MismatchAt(side, source, destinations))
  {
    hide MismatchAt;
    mismatchReasons := [];
    for i := 0 to |destinations|
      invariant forall j :: 0 <= j < i ==> source != destinations[j]
      invariant mismatchReasons == Collect(i, MismatchAt(side, source, destinations))
    {
      EquivalentIsEqual(source, destinations[i]);
      if Equivalent(source, destinations[i]) {
        return true, [];
      }
      var here := CompareWith(side, source, destinations, i);
      mismatchReasons := mismatchReasons + here;
    }
    found := false;
  }

  method ReasonForDiff(side: Side, sources: seq<Request>, all: seq<Request>) returns (reasons: seq<Reason>)
    ensures reasons == ReasonsForDiff(side, sources, all)
  {
    hide ReasonFor;
    reasons := [];
    for i := 0 to |sources|
      invariant reasons == Collect(i, ReasonForAt(side, sources, all))
    {
      var here := ReasonForRequest(side, sources[i], all);
      reasons := reasons + here;
    }
  }

  predicate SharesMetadata(p: Parser, x: Request, others: seq<Request>)
  {
    exists i :: 0 <= i < |others| && Expand(p, others[i]) == Expand(p, x)
  }

  function Unshared(p: Parser, others: seq<Request>): Request -> bool
  {
    (x: Request) => !SharesMetadata(p, x, others)
  }

  /** The reasons for two lists of requests without events. */
  function ListReasons(p: Parser, l: seq<Request>, r: seq<Request>): seq<Reason>
  {
    var missingInRhs, missingInLhs := Filter(l, AbsentFrom(r)), Filter(r, AbsentFrom(l));
    ReasonsForDiff(Rhs, missingInRhs, r) +
    ReasonsForDiff(Lhs, Filter(missingInLhs, Unshared(p, missingInRhs)), l)
  }

  function Reasons(p: Parser, lhs: Option<seq<Request>>, rhs: Option<seq<Request>>): seq<Reason>
  {
    match (lhs, rhs)
    case (None, None) => []
    case (None, Some(_)) => [NilSide(Lhs)]
    case (Some(_), None) => [NilSide(Rhs)]
    case (Some(l), Some(r)) => ListReasons(p, Filter(l, NotAnEvent()), Filter(r, NotAnEvent()))
  }

  method UniquelyMissing(p: Parser, missingInLhs: seq<Request>, missingInRhs: seq<Request>) returns (r: seq<Request>)
    ensures r == Filter(missingInLhs, Unshared(p, missingInRhs))
  {
    hide Expand;
    r := [];
    for i := 0 to |missingInLhs|
      invariant r == Filter(missingInLhs[..i], Unshared(p, missingInRhs))
    {
      FilterStep(missingInLhs, i, Unshared(p, missingInRhs));
      var lhsMetadata := ExpandedMetadataFor(p, missingInLhs[i]);
      var found := false;
      for j := 0 to |missingInRhs|
        invariant !found && forall k :: 0 <= k < j ==> Expand(p, missingInRhs[k]) != Expand(p, missingInLhs[i])
      {
        var rhsMetadata := ExpandedMetadataFor(p, missingInRhs[j]);
        if lhsMetadata == rhsMetadata {
          found := true;
          break;
        }
      }
      if !found {
        r := r + [missingInLhs[i]];
      }
    }
    assert missingInLhs[..|missingInLhs|] == missingInLhs;
  }

  method EquivalentClusterApplyResultIgnoringEvents(p: Parser, lhs: Option<seq<Request>>, rhs: Option<seq<Request>>)
    returns (reasons: seq<Reason>)
    ensures reasons == Reasons(p, lhs, rhs)
  {
    if lhs.None? && rhs.None? {
      return [];
    }
    if lhs.None? {
      return [NilSide(Lhs)];
    }
    if rhs.None? {
      return [NilSide(Rhs)];
    }
    var l := RemoveEvents(lhs.value);
    var r := RemoveEvents(rhs.value);
    var equivalent, missingInRhs, missingInLhs := AreAllSerializedRequestsEquivalentWithReasons(l, r);
    if equivalent {
      SameListsNoReasons(p, l, r);
      return [];
    }
    reasons := ReasonForDiff(Rhs, missingInRhs, r);
    var uniquelyMissingInLhs := UniquelyMissing(p, missingInLhs, missingInRhs);
    var lhsReasons := ReasonForDiff(Lhs, uniquelyMissingInLhs, l);
    reasons := reasons + lhsReasons;
  }

  lemma SameListsNoReasons(p: Parser, l: seq<Request>, r: seq<Request>)
    requires forall x :: x in l <==> x in r
    ensures ListReasons(p, l, r) == []
  {
    FilterNothing(l, AbsentFrom(r));
    FilterNothing(r, AbsentFrom(l));
  }

  /** A request without an equal on the other side always gets a reason, and only reasons about itself. */
  lemma AbsentGetsReason(side: Side, source: Request, all: seq<Request>)
    requires source !in all
    ensures ReasonFor(side, source, all) != []
    ensures forall reason :: reason in ReasonFor(side, source, all) ==>
              !reason.NilSide? && reason.side == side && reason.subject == source
  {
    var destinations := Filter(all, OfMetadata(source.metadata));
    FilterIn(all, OfMetadata(source.metadata));
    var mismatch := MismatchAt(side, source, destinations);
    forall reason: Reason | reason in Collect(|destinations|, mismatch)
      ensures !reason.NilSide? && reason.side == side && reason.subject == source
    {
      CollectIn(|destinations|, mismatch, reason);
    }
  }

  /** A destination of an apply with other options is a different request, not a different version of this one. */
  predicate Comparable(source: Request, destination: Request)
  {
    source.metadata.action in ["Apply", "ApplyStatus"] ==> source.options == destination.options
  }

  /** The reason is one of the mismatches with destination `j`. */
  predicate IsMismatch(side: Side, source: Request, destination: Request, j: nat, reason: Reason)
  {
    && Comparable(source, destination)
    && ((reason == BodyDiffers(side, source, j) && source.body != destination.body)
        || (reason == OptionsDiffer(side, source, j) && source.options != destination.options))
  }

  /** The destination is incomparable, or differs in nothing that is looked at. */
  predicate NoMismatch(source: Request, destination: Request)
  {
    Comparable(source, destination) ==> source.body == destination.body && source.options == destination.options
  }

  lemma MismatchIn(side: Side, source: Request, destinations: seq<Request>, j: nat, reason: Reason)
    requires j < |destinations|
    ensures reason in MismatchAt(side, source, destinations)(j) <==>
            IsMismatch(side, source, destinations[j], j, reason)
    ensures MismatchAt(side, source, destinations)(j) == [] <==> NoMismatch(source, destinations[j])
  {
  }

  /** The mismatches found are exactly those there are. */
  lemma MismatchAnywhere(side: Side, source: Request, destinations: seq<Request>, reason: Reason)
    ensures
      var mismatches := Collect(|destinations|, MismatchAt(side, source, destinations));
      && (reason in mismatches <==>
          exists j :: 0 <= j < |destinations| && IsMismatch(side, source, destinations[j], j, reason))
      && (mismatches == [] <==> forall j :: 0 <= j < |destinations| ==> NoMismatch(source, destinations[j]))
  {
    var f := MismatchAt(side, source, destinations);
    forall j: nat | j < |destinations|
      ensures reason in f(j) <==> IsMismatch(side, source, destinations[j], j, reason)
      ensures f(j) == [] <==> NoMismatch(source, destinations[j])
    {
      MismatchIn(side, source, destinations, j, reason);
    }
    hide MismatchAt, IsMismatch, NoMismatch;
    CollectIn(|destinations|, f, reason);
    CollectEmpty(|destinations|, f);
  }

  /** What the reasons for an absent request say: that nothing has its metadata, or which destinations of its metadata
      are comparable and differ in body or options, or that there is no such difference. */
  lemma ReasonsMean(side: Side, source: Request, all: seq<Request>, i: nat)
    requires source !in all
    ensures
      var reasons, destinations := ReasonFor(side, source, all), Filter(all, OfMetadata(source.metadata));
      && (Missing(side, source) in reasons <==> forall x :: x in all ==> x.metadata != source.metadata)
      && (BodyDiffers(side, source, i) in reasons <==>
            i < |destinations| && Comparable(source, destinations[i]) && source.body != destinations[i].body)
      && (OptionsDiffer(side, source, i) in reasons <==>
            i < |destinations| && Comparable(source, destinations[i]) && source.options != destinations[i].options)
      && (MissingEquivalent(side, source) in reasons <==>
            destinations != [] && forall j :: 0 <= j < |destinations| ==> NoMismatch(source, destinations[j]))
  {
    var destinations := Filter(all, OfMetadata(source.metadata));
    FilterIn(all, OfMetadata(source.metadata));
    hide Comparable, NoMismatch, Filter, Collect, MismatchAt;
    MismatchAnywhere(side, source, destinations, Missing(side, source));
    MismatchAnywhere(side, source, destinations, MissingEquivalent(side, source));
    MismatchAnywhere(side, source, destinations, BodyDiffers(side, source, i));
    MismatchAnywhere(side, source, destinations, OptionsDiffer(side, source, i));
    if destinations != [] { assert destinations[0] in destinations; }
  }

  /** Every source that is absent from the other side is the subject of a reason. */
  lemma SourceExplained(side: Side, sources: seq<Request>, all: seq<Request>, x: Request)
    requires x in sources && x !in all
    ensures exists reason :: reason in ReasonsForDiff(side, sources, all) && !reason.NilSide?
                             && reason.side == side && reason.subject == x
  {
    var i :| 0 <= i < |sources| && sources[i] == x;
    AbsentGetsReason(side, x, all);
    var f := ReasonForAt(side, sources, all);
    var reason := ReasonFor(side, x, all)[0];
    assert reason in ReasonFor(side, x, all);
    assert reason in f(i);
    CollectIn(|sources|, f, reason);
  }

  /** The list explains that `x` is missing on `side`. */
  predicate Explains(reasons: seq<Reason>, side: Side, x: Request)
  {
    exists i :: 0 <= i < |reasons| && !reasons[i].NilSide? && reasons[i].side == side && reasons[i].subject == x
  }

  lemma ExplainedIn(reasons: seq<Reason>, more: seq<Reason>, side: Side, x: Request)
    requires Explains(reasons, side, x) || Explains(more, side, x)
    ensures Explains(reasons + more, side, x)
  {
    var all := reasons + more;
    if i :| 0 <= i < |reasons| && !reasons[i].NilSide? && reasons[i].side == side && reasons[i].subject == x {
      assert all[i] == reasons[i];
    } else {
      var i :| 0 <= i < |more| && !more[i].NilSide? && more[i].side == side && more[i].subject == x;
      assert all[|reasons| + i] == more[i];
    }
  }

  /** The reasons for absent sources are about those sources alone. */
  lemma OnlySources(side: Side, sources: seq<Request>, all: seq<Request>, reason: Reason)
    requires forall x :: x in sources ==> x !in all
    requires reason in ReasonsForDiff(side, sources, all)
    ensures !reason.NilSide? && reason.side == side && reason.subject in sources
  {
    var f := ReasonForAt(side, sources, all);
    CollectIn(|sources|, f, reason);
    var i :| 0 <= i < |sources| && reason in f(i);
    AbsentGetsReason(side, sources[i], all);
  }

  lemma AppendExplains(
    first: seq<Reason>, second: seq<Reason>, side: Side, x: Request)
    ensures Explains(first + second, side, x) <==> Explains(first, side, x) || Explains(second, side, x)
  {
    var all := first + second;
    if i :| 0 <= i < |all| && !all[i].NilSide? && all[i].side == side && all[i].subject == x {
      if i < |first| { assert first[i] == all[i]; } else { assert second[i - |first|] == all[i]; }
    }
    if Explains(first, side, x) || Explains(second, side, x) { ExplainedIn(first, second, side, x); }
  }

  /** The reasons for absent sources explain exactly the sources, on their side. */
  lemma ExplainsSources(side: Side, sources: seq<Request>, all: seq<Request>, other: Side, x: Request)
    requires forall y :: y in sources ==> y !in all
    ensures Explains(ReasonsForDiff(side, sources, all), other, x) <==> other == side && x in sources
  {
    var reasons := ReasonsForDiff(side, sources, all);
    if i :| 0 <= i < |reasons| && !reasons[i].NilSide? && reasons[i].side == other && reasons[i].subject == x {
      OnlySources(side, sources, all, reasons[i]);
    }
    if other == side && x in sources { SourceExplained(side, sources, all, x); }
  }

  /** Suppression loses no mismatch, and no reason is false. Exactly the requests missing from the rhs are explained
      there, and exactly those missing from the lhs whose expanded metadata no request missing from the rhs shares; so
      what is suppressed shares its metadata with something explained. */
  lemma SuppressionLosesNothing(p: Parser, l: seq<Request>, r: seq<Request>, x: Request)
    ensures Explains(ListReasons(p, l, r), Rhs, x) <==> x in l && x !in r
    ensures Explains(ListReasons(p, l, r), Lhs, x) <==>
            x in r && x !in l && !SharesMetadata(p, x, Filter(l, AbsentFrom(r)))
    ensures x in r && x !in l ==>
              || Explains(ListReasons(p, l, r), Lhs, x)
              || exists y :: y in l && y !in r && Expand(p, y) == Expand(p, x) && Explains(ListReasons(p, l, r), Rhs, y)
  {
    var missingInRhs, missingInLhs := Filter(l, AbsentFrom(r)), Filter(r, AbsentFrom(l));
    var unique := Filter(missingInLhs, Unshared(p, missingInRhs));
    var first, second := ReasonsForDiff(Rhs, missingInRhs, r), ReasonsForDiff(Lhs, unique, l);
    FilterIn(l, AbsentFrom(r));
    FilterIn(r, AbsentFrom(l));
    FilterIn(missingInLhs, Unshared(p, missingInRhs));
    forall side, y
      ensures Explains(first + second, side, y) <==> if side == Rhs then y in missingInRhs else y in unique
    {
      AppendExplains(first, second, side, y);
      ExplainsSources(Rhs, missingInRhs, r, side, y);
      ExplainsSources(Lhs, unique, l, side, y);
    }
    if x in missingInLhs && x !in unique {
      var i :| 0 <= i < |missingInRhs| && Expand(p, missingInRhs[i]) == Expand(p, x);
      assert missingInRhs[i] in missingInRhs;
    }
  }

  /** The same requests, but for the resource "events" of the core group and of the group of events. */
  ghost predicate SameRequests(l: seq<Request>, r: seq<Request>)
  {
    forall x :: || (x in l <==> x in r)
                || (x.metadata.resourceType.resource == "events"
                    && x.metadata.resourceType.group in ["", "events.k8s.io"])
  }

  /** The diff decides equivalence: it reports nothing exactly when both sides are nil, or neither is and they hold the
      same requests once events are dropped. */
  lemma DiffDecidesEquivalence(p: Parser, lhs: Option<seq<Request>>, rhs: Option<seq<Request>>)
    ensures Reasons(p, lhs, rhs) == [] <==>
            (lhs.None? && rhs.None?) || (lhs.Some? && rhs.Some? && SameRequests(lhs.value, rhs.value))
  {
    hide ListReasons;
    if lhs.Some? && rhs.Some? {
      var l, r := Filter(lhs.value, NotAnEvent()), Filter(rhs.value, NotAnEvent());
      FilterIn(lhs.value, NotAnEvent());
      FilterIn(rhs.value, NotAnEvent());
      if SameRequests(lhs.value, rhs.value) {
        SameListsNoReasons(p, l, r);
      }
      if ListReasons(p, l, r) == [] {
        forall x ensures x in l <==> x in r {
          SuppressionLosesNothing(p, l, r, x);
        }
      }
    }
  }

  /** A nil side is reported exactly when the other is not nil, and nothing else then. */
  lemma NilSideExactly(p: Parser, lhs: Option<seq<Request>>, rhs: Option<seq<Request>>, side: Side)
    ensures NilSide(side) in Reasons(p, lhs, rhs) <==>
            if side == Lhs then lhs.None? && rhs.Some? else lhs.Some? && rhs.None?
    ensures lhs.None? || rhs.None? ==> |Reasons(p, lhs, rhs)| <= 1
  {
    if lhs.Some? && rhs.Some? {
      var l, r := Filter(lhs.value, NotAnEvent()), Filter(rhs.value, NotAnEvent());
      var missingInRhs, missingInLhs := Filter(l, AbsentFrom(r)), Filter(r, AbsentFrom(l));
      var unique := Filter(missingInLhs, Unshared(p, missingInRhs));
      FilterIn(l, AbsentFrom(r));
      FilterIn(r, AbsentFrom(l));
      FilterIn(missingInLhs, Unshared(p, missingInRhs));
      hide ReasonsForDiff, Filter, Unshared;
      if NilSide(side) in ReasonsForDiff(Rhs, missingInRhs, r) { OnlySources(Rhs, missingInRhs, r, NilSide(side)); }
      if NilSide(side) in ReasonsForDiff(Lhs, unique, l) { OnlySources(Lhs, unique, l, NilSide(side)); }
    }
  }

  /** Reporting nothing is an equivalence relation on sides. */
  lemma NoReasonsIsEquivalence(p: Parser, a: Option<seq<Request>>, b: Option<seq<Request>>, c: Option<seq<Request>>)
    ensures Reasons(p, a, a) == []
    ensures Reasons(p, a, b) == [] ==> Reasons(p, b, a) == []
    ensures Reasons(p, a, b) == [] && Reasons(p, b, c) == [] ==> Reasons(p, a, c) == []
  {
    hide Reasons;
    DiffDecidesEquivalence(p, a, a);
    DiffDecidesEquivalence(p, a, b);
    DiffDecidesEquivalence(p, b, a);
    DiffDecidesEquivalence(p, b, c);
    DiffDecidesEquivalence(p, a, c);
  }

  /** Events are invisible: inserting them anywhere on a side leaves the reasons as they are. */
  lemma EventsAreInvisible(
    p: Parser, before: seq<Request>, events: seq<Request>, after: seq<Request>, other: Option<seq<Request>>)
    requires forall e :: e in events ==>
      e.metadata.resourceType.resource == "events" && e.metadata.resourceType.group in ["", "events.k8s.io"]
    ensures Reasons(p, Some(before + events + after), other) == Reasons(p, Some(before + after), other)
    ensures Reasons(p, other, Some(before + events + after)) == Reasons(p, other, Some(before + after))
  {
    FilterAppend(before + events, after, NotAnEvent());
    FilterAppend(before, events, NotAnEvent());
    FilterAppend(before, after, NotAnEvent());
    FilterNothing(events, NotAnEvent());
    assert Filter(before, NotAnEvent()) + [] == Filter(before, NotAnEvent());
  }
}
