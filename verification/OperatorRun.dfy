/** The controllers of an operator run once, and the output of the run: operator_launch_helpers.go under options.go. */
module OperatorRun {
  import opened Seqs
  import opened Kube
  import opened Requests
  import opened AllowList
  import opened Unspecified
  import opened MutationFiles
  import opened MutationRoundTrip
  import opened OutputFiles
  import opened ApplyConfiguration
  import opened WriteOrder
  import Controllers

  /** Every cluster type shows the one tracker of the requests made. */
  ghost predicate ShowsMade(m: Mutations, ran: seq<Request>)
  {
    forall c: ClusterType :: c in m && m[c] == Tracking(Track(map[], ran))
  }

  lemma ShowsMadeMeans(m: Mutations, ran: seq<Request>)
    requires ShowsMade(m, ran)
    ensures AllFiled(m) && !Broken(m)
    ensures forall c: ClusterType, x :: CountIn(m, c, x) == multiset(ran)[x]
    ensures forall x :: Total(m, x) > 0 <==> x in ran
  {
    TrackCounts(map[], ran);
    forall c: ClusterType, x ensures CountIn(m, c, x) == multiset(ran)[x] {
      assert Count(map[], x) == 0;
    }
    assert forall x :: x in ran <==> x in multiset(ran);
    hide CountIn;
  }

  /** The requests that go into a cluster type's directory, or, for none, into that of the unspecified. */
  function Goes(allowed: OutputResources, directory: Option<ClusterType>): Request -> bool
  {
    match directory
    case Some(c) => Keeps(Some(ListFor(allowed, c)))
    case None => NotAllowed(allowed)
  }

  function Batch(b: Batches, directory: Option<ClusterType>): seq<Request>
  {
    match directory
    case Some(c) => BatchFor(b, c)
    case None => b.unspecified
  }

  /** What a cluster type's batch lists is what its list allows, action by action. */
  lemma BatchByActions(m: Mutations, ran: seq<Request>, allowed: OutputResources, c: ClusterType, xs: seq<Request>)
    returns (actions: seq<string>)
    requires ShowsMade(m, ran) && IsBatch(m, allowed, c, xs)
    ensures forall x :: x in ran ==> x.metadata.action in actions
    ensures xs == ByActions(Filter(ran, Keeps(Some(ListFor(allowed, c)))), actions)
  {
    hide AllowedBy, Track;
    var t, l := Track(map[], ran), Some(ListFor(allowed, c));
    actions :| Enumerates(actions, FilterTracked(t, l).Keys) && xs == RequestsForActions(FilterTracked(t, l), actions);
    FilteredActions(t, l, actions);
    TrackedByActions(ran, actions);
    FilterByActions(ran, actions, Keeps(l));
    ActionsTracked(ran, actions);
  }

  lemma ActionsTracked(ran: seq<Request>, actions: seq<string>)
    requires forall a :: a in Track(map[], ran) ==> a in actions
    ensures forall x :: x in ran ==> x.metadata.action in actions
  {
    hide Track;
    forall x | x in ran ensures x.metadata.action in actions {
      TrackAt(ran, x.metadata.action);
      FilterIn(ran, OfAction(x.metadata.action));
      assert x in Filter(ran, OfAction(x.metadata.action));
    }
  }

  /** Listing the one tracker for a cluster type lists the requests action by action. */
  lemma ListingByActions(
    m: Mutations, ran: seq<Request>, c: ClusterType, xs: seq<Request>)
    returns (actions: seq<string>)
    requires ShowsMade(m, ran) && Lists(m, c, xs)
    ensures forall x :: x in ran ==> x.metadata.action in actions
    ensures xs == ByActions(ran, actions)
  {
    hide Track;
    var t := Track(map[], ran);
    actions :| Enumerates(actions, t.Keys) && xs == RequestsForActions(t, actions);
    TrackedByActions(ran, actions);
    ActionsTracked(ran, actions);
  }

  lemma KeptIsPlain(xs: seq<Request>, keep: Request -> bool)
    requires AllPlain(Elements(xs))
    ensures AllPlain(Elements(Filter(xs, keep)))
  {
    hide PlainRequest;
    FilterIn(xs, keep);
    forall x | x in Elements(Filter(xs, keep)) ensures PlainRequest(x) { assert x in Elements(xs); }
  }

  /** The files of a cluster type's batch are those of the allowed requests, written in the order they were made in. */
  lemma BatchFiles(
    coding: Coding, m: Mutations, ran: seq<Request>, allowed: OutputResources, c: ClusterType, xs: seq<Request>)
    requires Sound(coding) && AllPlain(Elements(ran))
    requires ShowsMade(m, ran) && IsBatch(m, allowed, c, xs)
    ensures FilesOf(coding, xs) == FilesOf(coding, Filter(ran, Keeps(Some(ListFor(allowed, c)))))
  {
    hide AllowedBy, FilesOf, PlainRequest, Track, IsBatch, AllPlain, ShowsMade;
    var keep := Keeps(Some(ListFor(allowed, c)));
    var actions := BatchByActions(m, ran, allowed, c, xs);
    FilterIn(ran, keep);
    KeptIsPlain(ran, keep);
    ByActionsFiles(coding, Filter(ran, keep), actions);
  }

  /** Of one cluster type's listing, the files of what no list allows. */
  lemma ListingFiles(
    coding: Coding, m: Mutations, ran: seq<Request>, c: ClusterType, xs: seq<Request>, keep: Request -> bool)
    requires Sound(coding) && AllPlain(Elements(ran))
    requires ShowsMade(m, ran) && Lists(m, c, xs)
    ensures SameLast(coding, Filter(xs, keep), Filter(ran, keep))
  {
    hide FilesOf, PlainRequest, Track, Lists, AllPlain, ShowsMade, SameLast;
    var actions := ListingByActions(m, ran, c, xs);
    FilterIn(ran, keep);
    KeptIsPlain(ran, keep);
    FilterByActions(ran, actions, keep);
    ByActionsFiles(coding, Filter(ran, keep), actions);
    SameFilesExactly(coding, Filter(xs, keep), Filter(ran, keep));
  }

  /** The unspecified requests are written once per cluster type, which leaves the files of writing them once. */
  lemma UnspecifiedFiles(
    coding: Coding, m: Mutations, ran: seq<Request>, allowed: OutputResources, xs: seq<Request>)
    requires Sound(coding) && AllPlain(Elements(ran)) && ShowsMade(m, ran)
    requires exists all :: Gathers(m, all) && xs == Filter(all, NotAllowed(allowed))
    ensures FilesOf(coding, xs) == FilesOf(coding, Filter(ran, NotAllowed(allowed)))
  {
    hide FilesOf, PlainRequest, Track, Lists, AllPlain, ShowsMade, NotAllowed, LastPut;
    var keep := NotAllowed(allowed);
    var all :| Gathers(m, all) && xs == Filter(all, keep);
    var parts :| |parts| == 3 && ListedUpTo(m, parts) && all == Flat(parts);
    FlatThree(parts);
    FilterAppend(parts[0] + parts[1], parts[2], keep);
    FilterAppend(parts[0], parts[1], keep);
    ListingFiles(coding, m, ran, ALL_CLUSTER_TYPES[0], parts[0], keep);
    ListingFiles(coding, m, ran, ALL_CLUSTER_TYPES[1], parts[1], keep);
    ListingFiles(coding, m, ran, ALL_CLUSTER_TYPES[2], parts[2], keep);
    TripledLast(coding, Filter(parts[0], keep), Filter(parts[1], keep), Filter(parts[2], keep), Filter(ran, keep));
    SameFilesExactly(coding, xs, Filter(ran, keep));
  }

  lemma TripledLast(coding: Coding, a: seq<Request>, b: seq<Request>, c: seq<Request>, xs: seq<Request>)
    requires SameLast(coding, a, xs) && SameLast(coding, b, xs) && SameLast(coding, c, xs)
    ensures SameLast(coding, a + b + c, xs)
  {
    hide LastPut;
    forall path ensures LastPut(coding, a + b + c, path) == LastPut(coding, xs, path) {
      LastPutAppend(coding, a + b, c, path);
      LastPutAppend(coding, a, b, path);
    }
  }

  /** Some controller that runs makes the request. */
  ghost predicate Makes(cs: seq<Controllers.Controller>, flags: seq<string>, x: Request)
  {
    exists c :: c in cs && Controllers.Enabled(c.name, flags) && x in c.requests
  }

  ghost predicate Unallowed(allowed: OutputResources, x: Request)
  {
    && !Allows(allowed.configuration, x.metadata)
    && !Allows(allowed.management, x.metadata)
    && !Allows(allowed.userWorkload, x.metadata)
  }

  /** What a run writes to each directory: of the requests made, those that the list of the cluster type allows, and
      apart from them those that none of the three allows. */
  ghost predicate WritesMade(
    b: Batches, cs: seq<Controllers.Controller>, flags: seq<string>, allowed: OutputResources)
  {
    forall x ::
      && (x in b.configuration <==> Makes(cs, flags, x) && Allows(allowed.configuration, x.metadata))
      && (x in b.management <==> Makes(cs, flags, x) && Allows(allowed.management, x.metadata))
      && (x in b.userWorkload <==> Makes(cs, flags, x) && Allows(allowed.userWorkload, x.metadata))
      && (x in b.unspecified <==> Makes(cs, flags, x) && Unallowed(allowed, x))
  }

  lemma GoesExactly(allowed: OutputResources, x: Request)
    ensures Goes(allowed, Some(Configuration))(x) <==> Allows(allowed.configuration, x.metadata)
    ensures Goes(allowed, Some(Management))(x) <==> Allows(allowed.management, x.metadata)
    ensures Goes(allowed, Some(UserWorkload))(x) <==> Allows(allowed.userWorkload, x.metadata)
    ensures Goes(allowed, None)(x) <==> Unallowed(allowed, x)
  {
    hide Allows, NotAllowed;
    NotAllowedExactly(allowed, x);
  }

  lemma HeldAt(b: Batches, made: seq<Request>, allowed: OutputResources, d: Option<ClusterType>, x: Request)
    requires HoldsMade(b, made, allowed)
    ensures x in Batch(b, d) <==> x in made && Goes(allowed, d)(x)
  {
  }

  lemma HeldIsWritten(b: Batches, cs: seq<Controllers.Controller>, flags: seq<string>, allowed: OutputResources)
    ensures WritesMade(b, cs, flags, allowed) <==> HoldsMade(b, Controllers.Made(cs, flags), allowed)
  {
    hide Makes, Allows, Goes, Unallowed, Controllers.Made;
    var made := Controllers.Made(cs, flags);
    if WritesMade(b, cs, flags, allowed) {
      forall d: Option<ClusterType>, x ensures x in Batch(b, d) <==> x in made && Goes(allowed, d)(x) {
        IsMade(cs, flags, x);
        GoesExactly(allowed, x);
        match d
        case None =>
        case Some(c) => match c case Configuration => case Management => case UserWorkload =>
      }
    }
    if HoldsMade(b, made, allowed) {
      hide HoldsMade;
      forall x
        ensures x in b.configuration <==> Makes(cs, flags, x) && Allows(allowed.configuration, x.metadata)
        ensures x in b.management <==> Makes(cs, flags, x) && Allows(allowed.management, x.metadata)
        ensures x in b.userWorkload <==> Makes(cs, flags, x) && Allows(allowed.userWorkload, x.metadata)
        ensures x in b.unspecified <==> Makes(cs, flags, x) && Unallowed(allowed, x)
      {
        IsMade(cs, flags, x);
        GoesExactly(allowed, x);
        HeldAt(b, made, allowed, Some(Configuration), x);
        HeldAt(b, made, allowed, Some(Management), x);
        HeldAt(b, made, allowed, Some(UserWorkload), x);
        HeldAt(b, made, allowed, None, x);
      }
    }
  }

  lemma IsMade(cs: seq<Controllers.Controller>, flags: seq<string>, x: Request)
    ensures x in Controllers.Made(cs, flags) <==> Makes(cs, flags, x)
  {
    Controllers.MadeIn(cs, flags, x);
  }

  /** What a run writes to each directory holds exactly the requests made that go there. */
  ghost predicate HoldsMade(b: Batches, made: seq<Request>, allowed: OutputResources)
  {
    forall d: Option<ClusterType>, x :: x in Batch(b, d) <==> x in made && Goes(allowed, d)(x)
  }

  /** What a run writes to each directory leaves there the files of what goes there, in the order of the run. */
  ghost predicate LeavesFilesOf(coding: Coding, b: Batches, ran: seq<Request>, allowed: OutputResources)
  {
    forall d: Option<ClusterType> :: FilesOf(coding, Batch(b, d)) == FilesOf(coding, Filter(ran, Goes(allowed, d)))
  }

  lemma BatchesWriteMade(m: Mutations, ran: seq<Request>, made: seq<Request>, allowed: OutputResources, b: Batches)
    requires ShowsMade(m, ran) && AreBatches(m, allowed, b) && multiset(ran) == multiset(made)
    ensures HoldsMade(b, made, allowed)
    ensures ProducesUnspecified(m, allowed) <==> exists x :: x in made && !Specified(allowed, x)
  {
    hide Allows, Gathers, IsBatch, ShowsMade, CountIn, Total, AllFiled, Specified;
    ShowsMadeMeans(m, ran);
    PermutationElements(ran, made);
    UnspecifiedElements(m, allowed, b.unspecified);
    forall d: Option<ClusterType>, x ensures x in Batch(b, d) <==> x in made && Goes(allowed, d)(x) {
      match d
      case None => NotAllowedExactly(allowed, x);
      case Some(c) => BatchElements(m, allowed, c, BatchFor(b, c));
    }
  }

  lemma BatchesLeaveFiles(coding: Coding, m: Mutations, ran: seq<Request>, allowed: OutputResources, b: Batches)
    requires Sound(coding) && AllPlain(Elements(ran)) && ShowsMade(m, ran) && AreBatches(m, allowed, b)
    ensures LeavesFilesOf(coding, b, ran, allowed)
  {
    hide Keeps, NotAllowed, Gathers, IsBatch, ShowsMade, FilesOf, AllPlain;
    UnspecifiedFiles(coding, m, ran, allowed, b.unspecified);
    forall d: Option<ClusterType>
      ensures FilesOf(coding, Batch(b, d)) == FilesOf(coding, Filter(ran, Goes(allowed, d)))
    {
      if d.Some? { BatchFiles(coding, m, ran, allowed, d.value, BatchFor(b, d.value)); }
    }
  }

  /** What a run of an operator reports, exactly. */
  ghost predicate Reports(
    errs: seq<RunError>, io: Io, b: Batches, cs: seq<Controllers.Controller>, flags: seq<string>,
    allowed: OutputResources, allowedFailed: bool)
  {
    && CannotCreateDirectory !in errs
    && (OutputResourcesFailed in errs <==> allowedFailed)
    && (ApplyFailed in errs <==>
          exists c :: c in cs && Controllers.Enabled(c.name, flags) && c.outcome.ReturnsError?)
    && ((exists e :: InvalidMutations(e) in errs) <==> exists x :: Makes(cs, flags, x) && Unallowed(allowed, x))
    && (forall e :: e in errs ==> !e.InvalidFilteredMutations?)
    && WritesReported(errs, io, b)
  }

  /** One run of an operator, end to end. It panics exactly when there is no allow list, or the controllers refuse to
      run: for a repeated name or a mistyped flag `RunOnce` returns no mutations, and its error is never reported.
      Otherwise the results are determined by the controllers and the flags, and so is which requests are written to
      each directory; the files they leave there are those of writing them in the order of the shuffle. */
  method RunOperator(
    dir: OutputDirectory, io: Io, controllers: array<Controllers.Controller>, flags: seq<string>,
    tracker: AllActionsTracker, allowed: Option<OutputResources>, allowedFailed: bool)
    returns (r: RunResult, ghost b: Batches)
    requires tracker.actionToTracker == map[]
    modifies dir, controllers, tracker
    ensures Shuffled(controllers[..], old(controllers[..]))
    ensures !io.mkdirOk ==> r == Exited([CannotCreateDirectory])
    ensures io.mkdirOk ==>
              (r.Crashed? <==> allowed.None? || Controllers.Refusal(old(controllers[..]), flags).Some?)
    ensures !io.mkdirOk || r.Crashed? ==> dir.entries == old(dir.entries)
    ensures
      var results := Controllers.Canonical(Controllers.Results(old(controllers[..]), flags));
      io.mkdirOk && r.Exited? ==>
        && WritesMade(b, old(controllers[..]), flags, allowed.value)
        && dir.entries ==
           OutputOf(
             io, old(dir.entries), b, Some(Controllers.ApplyConfigurationRunResult(Controllers.Slice(results))))
        && Reports(r.errs, io, b, old(controllers[..]), flags, allowed.value, allowedFailed)
    ensures io.mkdirOk && r.Exited? && Sound(io.coding)
            && AllPlain(Elements(Controllers.Made(old(controllers[..]), flags))) ==>
              LeavesFilesOf(io.coding, b, Controllers.Made(controllers[..], flags), allowed.value)
  {
    hide Controllers.Made, Controllers.Results, Controllers.Errors, Controllers.Canonical, Controllers.Refusal,
      Controllers.Slice, OutputOf, Specified, ProducesUnspecified, AllFiled, WritesReported, Track, Sound, AllPlain,
      WritesMade, Reports, ReportsExactly, Makes, Unallowed, LeavesFilesOf, AreBatches;
    b := Batches([], [], [], []);
    if !io.mkdirOk {
      return Exited([CannotCreateDirectory]), b;
    }
    ghost var before, cs := dir.entries, controllers[..];
    var outcome, mutations := Controllers.RunOnce(controllers, flags, tracker);
    if mutations.None? {
      r, b := Run(dir, io, Produced(allowed, allowedFailed, None, None, true));
    } else {
      ghost var ran := Controllers.Made(controllers[..], flags);
      ShowsMadeMeans(mutations.value, ran);
      EmptyAlike(outcome.errs, Controllers.Errors(cs, flags));
      var p := Produced(allowed, allowedFailed, Some(outcome.result), mutations, |outcome.errs| > 0);
      r, b := Run(dir, io, p);
      if r.Exited? {
        RunWrites(mutations.value, ran, cs, flags, allowed.value, b, io.coding);
        FailuresReported(cs, flags);
        RunReports(r.errs, io, b, p, cs, flags);
      }
    }
  }

  /** A run fails exactly if some controller that runs returns an error. */
  lemma {:induction false} FailuresReported(cs: seq<Controllers.Controller>, flags: seq<string>)
    ensures Controllers.Errors(cs, flags) != [] <==>
            exists c :: c in cs && Controllers.Enabled(c.name, flags) && c.outcome.ReturnsError?
  {
    hide Controllers.Enabled;
    if cs != [] {
      var init, last := cs[..|cs| - 1], cs[|cs| - 1];
      assert cs == init + [last];
      FailuresReported(init, flags);
    }
  }

  lemma RunReports(
    errs: seq<RunError>, io: Io, b: Batches, p: Produced, cs: seq<Controllers.Controller>, flags: seq<string>)
    requires Dereferenceable(p) && ReportsExactly(errs, io, p, b)
    requires ProducesUnspecified(p.mutations.value, p.allowed.value) <==>
             exists x :: Makes(cs, flags, x) && Unallowed(p.allowed.value, x)
    requires p.applyFailed <==> exists c :: c in cs && Controllers.Enabled(c.name, flags) && c.outcome.ReturnsError?
    ensures Reports(errs, io, b, cs, flags, p.allowed.value, p.allowedFailed)
  {
    hide ProducesUnspecified, WritesReported, Makes, Unallowed, Controllers.Enabled;
  }

  /** What the batches of a run are, in terms of the controllers. */
  lemma RunWrites(
    m: Mutations, ran: seq<Request>, cs: seq<Controllers.Controller>, flags: seq<string>, allowed: OutputResources,
    b: Batches, coding: Coding)
    requires ShowsMade(m, ran) && AreBatches(m, allowed, b) && multiset(ran) == multiset(Controllers.Made(cs, flags))
    ensures WritesMade(b, cs, flags, allowed)
    ensures ProducesUnspecified(m, allowed) <==> exists x :: Makes(cs, flags, x) && Unallowed(allowed, x)
    ensures Sound(coding) && AllPlain(Elements(Controllers.Made(cs, flags))) ==>
              LeavesFilesOf(coding, b, ran, allowed)
  {
    hide ShowsMade, AreBatches, WritesMade, HoldsMade, LeavesFilesOf, ProducesUnspecified, Allows, Sound, PlainRequest,
      Makes, Controllers.Made;
    var made := Controllers.Made(cs, flags);
    BatchesWriteMade(m, ran, made, allowed, b);
    HeldIsWritten(b, cs, flags, allowed);
    forall x ensures x in made <==> Makes(cs, flags, x) { IsMade(cs, flags, x); }
    PermutationElements(ran, made);
    assert Elements(ran) == Elements(made);
    if Sound(coding) && AllPlain(Elements(made)) { BatchesLeaveFiles(coding, m, ran, allowed, b); }
  }

  lemma EmptyAlike<T(!new)>(a: seq<T>, b: seq<T>)
    requires multiset(a) == multiset(b)
    ensures a == [] <==> b == []
  {
    assert |multiset(a)| == |a| && |multiset(b)| == |b|;
  }

  /** Two runs leave the same files in every directory. */
  ghost predicate SameDirectories(coding: Coding, a: Batches, b: Batches)
  {
    forall d: Option<ClusterType> :: FilesOf(coding, Batch(a, d)) == FilesOf(coding, Batch(b, d))
  }

  /** The runs `a` and `b`, with the controllers in the orders `ds` and `cs`. */
  ghost predicate RunInOrders(
    coding: Coding, ds: seq<Controllers.Controller>, a: Batches, cs: seq<Controllers.Controller>, b: Batches,
    flags: seq<string>, allowed: OutputResources)
  {
    && Shuffled(ds, cs)
    && LeavesFilesOf(coding, a, Controllers.Made(ds, flags), allowed)
    && LeavesFilesOf(coding, b, Controllers.Made(cs, flags), allowed)
  }

  /** Completely written, the directories of a run do not depend on the shuffle if and only if no two controllers leave
      different contents at one path of one directory. */
  lemma DirectoriesExactly(
    coding: Coding, cs: seq<Controllers.Controller>, flags: seq<string>, allowed: OutputResources)
    ensures (forall d: Option<ClusterType> :: NoClash(coding, cs, flags, Goes(allowed, d))) <==>
            forall ds, a, b :: RunInOrders(coding, ds, a, cs, b, flags, allowed) ==> SameDirectories(coding, a, b)
  {
    hide FilesOf, Controllers.Made, NoClash, Goes, Shuffled;
    if forall d: Option<ClusterType> :: NoClash(coding, cs, flags, Goes(allowed, d)) {
      forall ds, a, b | RunInOrders(coding, ds, a, cs, b, flags, allowed) ensures SameDirectories(coding, a, b) {
        forall d: Option<ClusterType> ensures FilesOf(coding, Batch(a, d)) == FilesOf(coding, Batch(b, d)) {
          NoClashFiles(coding, cs, ds, flags, Goes(allowed, d));
        }
      }
    }
    if forall ds, a, b :: RunInOrders(coding, ds, a, cs, b, flags, allowed) ==> SameDirectories(coding, a, b) {
      forall d: Option<ClusterType> ensures NoClash(coding, cs, flags, Goes(allowed, d)) {
        forall ds | Shuffled(ds, cs)
          ensures FilesOf(coding, KeptOf(ds, flags, Goes(allowed, d))) ==
                  FilesOf(coding, KeptOf(cs, flags, Goes(allowed, d)))
        {
          var a := MadeBatches(coding, Controllers.Made(ds, flags), allowed);
          var b := MadeBatches(coding, Controllers.Made(cs, flags), allowed);
          assert RunInOrders(coding, ds, a, cs, b, flags, allowed);
          assert FilesOf(coding, Batch(a, d)) == FilesOf(coding, Batch(b, d));
        }
        ShuffleExactly(coding, cs, flags, Goes(allowed, d));
      }
    }
  }

  lemma MadeBatches(coding: Coding, ran: seq<Request>, allowed: OutputResources) returns (b: Batches)
    ensures LeavesFilesOf(coding, b, ran, allowed)
  {
    hide FilesOf, Goes;
    b := Batches(
      Filter(ran, Goes(allowed, Some(Configuration))), Filter(ran, Goes(allowed, Some(Management))),
      Filter(ran, Goes(allowed, Some(UserWorkload))), Filter(ran, Goes(allowed, None)));
    forall d: Option<ClusterType> ensures Batch(b, d) == Filter(ran, Goes(allowed, d)) {
      match d
      case None =>
      case Some(c) => match c case Configuration => case Management => case UserWorkload =>
    }
  }

  /** The requests made that go into the directory. */
  ghost function Wanted(
    cs: seq<Controllers.Controller>, flags: seq<string>, allowed: OutputResources, d: Option<ClusterType>): set<Request>
  {
    set x | x in Controllers.Made(cs, flags) && Goes(allowed, d)(x)
  }

  /** Completely written, a directory reads back as exactly the requests made that go there, each once, if and only if
      no two of them share files; given that each can be read from its own files and none is mistaken. */
  lemma NothingLostExactly(
    coding: Coding, b: Batches, cs: seq<Controllers.Controller>, flags: seq<string>, allowed: OutputResources,
    d: Option<ClusterType>)
    requires Sound(coding) && WritesMade(b, cs, flags, allowed)
    requires AllPlain(Wanted(cs, flags, allowed, d)) && AllSelfRead(coding, Wanted(cs, flags, allowed, d))
    requires NoneMistaken(Wanted(cs, flags, allowed, d))
    ensures ReadsExactly(coding, FilesOf(coding, Batch(b, d)), Wanted(cs, flags, allowed, d)) <==>
            NoSharing(coding, Wanted(cs, flags, allowed, d))
  {
    hide FilesOf, Goes, ReadsExactly, NoSharing, AllPlain, AllSelfRead, NoneMistaken, Sound, Batch, Controllers.Made,
      WritesMade;
    HeldIsWritten(b, cs, flags, allowed);
    forall x ensures x in Elements(Batch(b, d)) <==> x in Wanted(cs, flags, allowed, d) {
      assert x in Batch(b, d) <==> x in Controllers.Made(cs, flags) && Goes(allowed, d)(x);
    }
    assert Elements(Batch(b, d)) == Wanted(cs, flags, allowed, d);
    SharingExactly(coding, Batch(b, d));
  }
}
