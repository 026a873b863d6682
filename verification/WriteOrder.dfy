/** What the order of writing decides: the actions are iterated in any order, and the controllers are shuffled. */
module WriteOrder {
  import opened Seqs
  import opened Kube
  import opened Requests
  import opened MutationFiles
  import opened MutationNames
  import opened MutationRoundTrip
  import Controllers

  /** The requests action by action. */
  function ByActions(xs: seq<Request>, actions: seq<string>): seq<Request>
  {
    if actions == [] then []
    else
      ByActions(xs, actions[..|actions| - 1]) + Filter(xs, OfAction(actions[|actions| - 1]))
  }

  lemma {:induction false} TrackedByActions(xs: seq<Request>, actions: seq<string>)
    ensures RequestsForActions(Track(map[], xs), actions) == ByActions(xs, actions)
  {
    hide Track;
    if actions != [] {
      TrackedByActions(xs, actions[..|actions| - 1]);
      TrackAt(xs, actions[|actions| - 1]);
    }
  }

  lemma FilterSwap(xs: seq<Request>, p: Request -> bool, q: Request -> bool)
    ensures Filter(Filter(xs, p), q) == Filter(Filter(xs, q), p)
  {
    var both := (x: Request) => p(x) && q(x);
    FilterTwice(xs, p, q, both);
    FilterTwice(xs, q, p, both);
  }

  lemma {:induction false} FilterByActions(xs: seq<Request>, actions: seq<string>, keep: Request -> bool)
    ensures Filter(ByActions(xs, actions), keep) == ByActions(Filter(xs, keep), actions)
  {
    if actions != [] {
      var init, last := actions[..|actions| - 1], actions[|actions| - 1];
      FilterByActions(xs, init, keep);
      FilterAppend(ByActions(xs, init), Filter(xs, OfAction(last)), keep);
      FilterSwap(xs, OfAction(last), keep);
    }
  }

  /** Only requests of one action write the path. */
  ghost predicate WrittenBy(coding: Coding, xs: seq<Request>, path: string, action: string)
  {
    forall x :: x in xs && path in Puts(coding, x) ==> x.metadata.action == action
  }

  /** Dropping requests that do not write the path changes nothing there. */
  lemma {:induction false} LastPutOfAction(coding: Coding, xs: seq<Request>, path: string, action: string, a: string)
    requires WrittenBy(coding, xs, path, action)
    ensures LastPut(coding, Filter(xs, OfAction(a)), path) == if a == action then LastPut(coding, xs, path) else None
  {
    hide Puts;
    if xs != [] {
      var init, last := xs[..|xs| - 1], xs[|xs| - 1];
      assert xs == init + [last] && last in xs;
      LastPutOfAction(coding, init, path, action, a);
      LastPutAppend(coding, Filter(init, OfAction(a)), if OfAction(a)(last) then [last] else [], path);
      assert [last][..0] == [];
    }
  }

  lemma {:induction false} LastPutByActions(
    coding: Coding, xs: seq<Request>, path: string, action: string, actions: seq<string>)
    requires WrittenBy(coding, xs, path, action)
    ensures LastPut(coding, ByActions(xs, actions), path) ==
            if action in actions then LastPut(coding, xs, path) else None
  {
    hide Puts, LastPut, WrittenBy;
    if actions == [] {
      assert LastPut(coding, [], path) == None by { LastPutIn(coding, [], path); }
    } else {
      var init, last := actions[..|actions| - 1], actions[|actions| - 1];
      assert actions == init + [last];
      LastPutByActions(coding, xs, path, action, init);
      LastPutOfAction(coding, xs, path, action, last);
      LastPutAppend(coding, ByActions(xs, init), Filter(xs, OfAction(last)), path);
    }
  }

  /** Whatever is written to one path has one action. */
  lemma OneAction(coding: Coding, x: Request, y: Request, path: string)
    requires Sound(coding) && PlainRequest(x) && PlainRequest(y)
    requires path in Puts(coding, x) && path in Puts(coding, y)
    ensures x.metadata.action == y.metadata.action && KeyOf(coding, x) == KeyOf(coding, y)
  {
    hide Puts, PartPath, KeyPath, PlainRequest, KeyOf;
    PutsAt(coding, x, path);
    PutsAt(coding, y, path);
    OneKey(coding, x, y, path);
    ActionKept(coding, x);
    ActionKept(coding, y);
  }

  lemma OneKey(coding: Coding, x: Request, y: Request, path: string)
    requires Sound(coding) && PlainRequest(x) && PlainRequest(y)
    requires exists part :: IsPart(part) && path == KeyPath(KeyOf(coding, x), part)
    requires exists part :: IsPart(part) && path == KeyPath(KeyOf(coding, y), part)
    ensures KeyOf(coding, x) == KeyOf(coding, y)
  {
    hide KeyPath, PlainRequest, KeyOf;
    var p :| IsPart(p) && path == KeyPath(KeyOf(coding, x), p);
    var q :| IsPart(q) && path == KeyPath(KeyOf(coding, y), q);
    KeyIsPlain(coding, x);
    KeyIsPlain(coding, y);
    KeyPathInjective(KeyOf(coding, x), p, KeyOf(coding, y), q);
  }

  /** Every path was last written the same. */
  ghost predicate SameLast(coding: Coding, xs: seq<Request>, ys: seq<Request>)
  {
    forall path :: LastPut(coding, xs, path) == LastPut(coding, ys, path)
  }

  /** The files are the same exactly when every path was last written the same. */
  lemma SameFilesExactly(coding: Coding, xs: seq<Request>, ys: seq<Request>)
    ensures FilesOf(coding, xs) == FilesOf(coding, ys) <==> SameLast(coding, xs, ys)
  {
    hide FilesOf, LastPut, SameFile;
    forall path: string
      ensures SameFile(FilesOf(coding, xs), FilesOf(coding, ys), path) <==>
              LastPut(coding, xs, path) == LastPut(coding, ys, path)
    {
      FileLeft(coding, xs, ys, path);
    }
    SameFilesEqual(FilesOf(coding, xs), FilesOf(coding, ys));
  }

  predicate SameFile(a: map<string, string>, b: map<string, string>, path: string)
  {
    (path in a <==> path in b) && (path in a ==> a[path] == b[path])
  }

  lemma SameFilesEqual(a: map<string, string>, b: map<string, string>)
    ensures a == b <==> forall path :: SameFile(a, b, path)
  {
    if forall path :: SameFile(a, b, path) {
      forall path ensures path in a.Keys <==> path in b.Keys { assert SameFile(a, b, path); }
      forall path | path in a ensures a[path] == b[path] { assert SameFile(a, b, path); }
    }
  }

  lemma FileLeft(coding: Coding, xs: seq<Request>, ys: seq<Request>, path: string)
    ensures SameFile(FilesOf(coding, xs), FilesOf(coding, ys), path) <==>
            LastPut(coding, xs, path) == LastPut(coding, ys, path)
  {
    hide LastPut, AfterComplete;
    AfterCompleteAt(coding, map[], xs, path);
    AfterCompleteAt(coding, map[], ys, path);
  }

  /** Writing action by action, in whatever order of the actions, leaves the same files as writing in the order in which
      the requests were made. */
  lemma ByActionsFiles(coding: Coding, xs: seq<Request>, actions: seq<string>)
    requires Sound(coding) && AllPlain(Elements(xs))
    requires forall x :: x in xs ==> x.metadata.action in actions
    ensures FilesOf(coding, ByActions(xs, actions)) == FilesOf(coding, xs)
  {
    hide FilesOf, ByActions, LastPut, Puts, PlainRequest;
    forall path ensures LastPut(coding, ByActions(xs, actions), path) == LastPut(coding, xs, path) {
      LastPutIn(coding, xs, path);
      if x :| x in xs && path in Puts(coding, x) {
        forall y | y in xs && path in Puts(coding, y) ensures y.metadata.action == x.metadata.action {
          assert x in Elements(xs) && y in Elements(xs);
          OneAction(coding, x, y, path);
        }
        LastPutByActions(coding, xs, path, x.metadata.action, actions);
      } else {
        LastPutByActions(coding, xs, path, "", actions);
      }
    }
    SameFilesExactly(coding, ByActions(xs, actions), xs);
  }

  /** What of a controller's requests is kept. */
  function Kept(c: Controllers.Controller, flags: seq<string>, keep: Request -> bool): seq<Request>
  {
    Filter(Controllers.MadeBy(c, flags), keep)
  }

  /** What is kept of what the controllers make, in their order. */
  function KeptOf(cs: seq<Controllers.Controller>, flags: seq<string>, keep: Request -> bool): seq<Request>
  {
    Filter(Controllers.Made(cs, flags), keep)
  }

  /** No two controllers leave different contents at one path. */
  ghost predicate NoClash(
    coding: Coding, cs: seq<Controllers.Controller>, flags: seq<string>, keep: Request -> bool)
  {
    forall c, d, path :: c in cs && d in cs ==> Agree(coding, Kept(c, flags, keep), Kept(d, flags, keep), path)
  }

  predicate Agree(coding: Coding, xs: seq<Request>, ys: seq<Request>, path: string)
  {
    LastPut(coding, xs, path).Some? && LastPut(coding, ys, path).Some? ==>
      LastPut(coding, xs, path) == LastPut(coding, ys, path)
  }

  /** The last controller decides what it writes. */
  lemma LastDecides(
    coding: Coding, cs: seq<Controllers.Controller>, flags: seq<string>, keep: Request -> bool, path: string)
    requires cs != []
    ensures
      var last := LastPut(coding, Kept(cs[|cs| - 1], flags, keep), path);
      LastPut(coding, KeptOf(cs, flags, keep), path) ==
      if last.Some? then last else LastPut(coding, KeptOf(cs[..|cs| - 1], flags, keep), path)
  {
    hide LastPut, Controllers.MadeBy;
    var init, last := cs[..|cs| - 1], cs[|cs| - 1];
    FilterAppend(Controllers.Made(init, flags), Controllers.MadeBy(last, flags), keep);
    LastPutAppend(coding, KeptOf(init, flags, keep), Kept(last, flags, keep), path);
  }

  /** A path holds what some controller leaves there, and is missing if none writes it. */
  lemma {:induction false} SomeDecides(
    coding: Coding, cs: seq<Controllers.Controller>, flags: seq<string>, keep: Request -> bool, path: string)
    ensures
      var left := LastPut(coding, KeptOf(cs, flags, keep), path);
      && (left.Some? ==> exists c :: c in cs && LastPut(coding, Kept(c, flags, keep), path) == left)
      && (left.None? ==> forall c :: c in cs ==> LastPut(coding, Kept(c, flags, keep), path).None?)
  {
    hide LastPut, Kept;
    if cs == [] {
      assert KeptOf(cs, flags, keep) == [];
      LastPutIn(coding, [], path);
    } else {
      var init, last := cs[..|cs| - 1], cs[|cs| - 1];
      assert cs == init + [last];
      SomeDecides(coding, init, flags, keep, path);
      LastDecides(coding, cs, flags, keep, path);
    }
  }

  /** The same controllers in some order. */
  ghost predicate Shuffled(ds: seq<Controllers.Controller>, cs: seq<Controllers.Controller>)
  {
    multiset(ds) == multiset(cs)
  }

  /** The order of the controllers that ends with the chosen one. */
  function Ending(cs: seq<Controllers.Controller>, i: nat): seq<Controllers.Controller>
    requires i < |cs|
  {
    cs[..i] + cs[i + 1..] + [cs[i]]
  }

  lemma EndingIsShuffled(cs: seq<Controllers.Controller>, i: nat)
    requires i < |cs|
    ensures Shuffled(Ending(cs, i), cs)
  {
    assert cs == cs[..i] + ([cs[i]] + cs[i + 1..]);
  }

  /** The files do not depend on the order in which the controllers run if and only if no two controllers leave
      different contents at one path. */
  lemma ShuffleExactly(
    coding: Coding, cs: seq<Controllers.Controller>, flags: seq<string>, keep: Request -> bool)
    ensures NoClash(coding, cs, flags, keep) <==>
            forall ds :: Shuffled(ds, cs) ==>
              FilesOf(coding, KeptOf(ds, flags, keep)) == FilesOf(coding, KeptOf(cs, flags, keep))
  {
    hide FilesOf, LastPut, Kept, KeptOf, Shuffled;
    if NoClash(coding, cs, flags, keep) {
      forall ds | Shuffled(ds, cs)
        ensures FilesOf(coding, KeptOf(ds, flags, keep)) == FilesOf(coding, KeptOf(cs, flags, keep))
      {
        NoClashFiles(coding, cs, ds, flags, keep);
      }
    }
    if forall ds :: Shuffled(ds, cs) ==>
         FilesOf(coding, KeptOf(ds, flags, keep)) == FilesOf(coding, KeptOf(cs, flags, keep)) {
      forall c, d, path | c in cs && d in cs ensures Agree(coding, Kept(c, flags, keep), Kept(d, flags, keep), path) {
        var i :| 0 <= i < |cs| && cs[i] == c;
        var j :| 0 <= j < |cs| && cs[j] == d;
        EndingIsShuffled(cs, i);
        EndingIsShuffled(cs, j);
        LastDecides(coding, Ending(cs, i), flags, keep, path);
        LastDecides(coding, Ending(cs, j), flags, keep, path);
        SameFilesExactly(coding, KeptOf(Ending(cs, i), flags, keep), KeptOf(cs, flags, keep));
        SameFilesExactly(coding, KeptOf(Ending(cs, j), flags, keep), KeptOf(cs, flags, keep));
      }
    }
  }

  lemma NoClashFiles(
    coding: Coding, cs: seq<Controllers.Controller>, ds: seq<Controllers.Controller>, flags: seq<string>,
    keep: Request -> bool)
    requires NoClash(coding, cs, flags, keep) && Shuffled(ds, cs)
    ensures FilesOf(coding, KeptOf(ds, flags, keep)) == FilesOf(coding, KeptOf(cs, flags, keep))
  {
    hide FilesOf, LastPut, Kept, KeptOf;
    PermutationElements(ds, cs);
    forall path
      ensures LastPut(coding, KeptOf(ds, flags, keep), path) == LastPut(coding, KeptOf(cs, flags, keep), path)
    {
      SomeDecides(coding, ds, flags, keep, path);
      SomeDecides(coding, cs, flags, keep, path);
      AgreeThere(coding, cs, flags, keep, path);
    }
    SameFilesExactly(coding, KeptOf(ds, flags, keep), KeptOf(cs, flags, keep));
  }

  lemma AgreeThere(
    coding: Coding, cs: seq<Controllers.Controller>, flags: seq<string>, keep: Request -> bool, path: string)
    requires NoClash(coding, cs, flags, keep)
    ensures forall c, d :: c in cs && d in cs && LastPut(coding, Kept(c, flags, keep), path).Some?
                           && LastPut(coding, Kept(d, flags, keep), path).Some? ==>
                             LastPut(coding, Kept(c, flags, keep), path) == LastPut(coding, Kept(d, flags, keep), path)
  {
    hide LastPut, Kept;
    forall c, d | c in cs && d in cs ensures Agree(coding, Kept(c, flags, keep), Kept(d, flags, keep), path) {}
  }

  /** Controllers cannot clash over kept requests of which no two different ones share files. */
  lemma UnsharedIsShuffleProof(
    coding: Coding, cs: seq<Controllers.Controller>, flags: seq<string>, keep: Request -> bool)
    requires Sound(coding) && AllPlain(Elements(KeptOf(cs, flags, keep)))
    requires NoSharing(coding, Elements(KeptOf(cs, flags, keep)))
    ensures NoClash(coding, cs, flags, keep)
  {
    hide LastPut, Kept, KeptOf, Puts, PlainRequest, SharesFiles;
    forall c, d, path | c in cs && d in cs ensures Agree(coding, Kept(c, flags, keep), Kept(d, flags, keep), path) {
      LastPutIn(coding, Kept(c, flags, keep), path);
      LastPutIn(coding, Kept(d, flags, keep), path);
      KeptIn(cs, c, flags, keep);
      KeptIn(cs, d, flags, keep);
      forall x, y | x in Kept(c, flags, keep) && y in Kept(d, flags, keep)
                    && path in Puts(coding, x) && path in Puts(coding, y)
        ensures x == y
      {
        assert x in Elements(KeptOf(cs, flags, keep)) && y in Elements(KeptOf(cs, flags, keep));
        OneAction(coding, x, y, path);
        SharesFilesExactly(coding, x, y);
      }
    }
  }

  lemma {:induction false} KeptIn(
    cs: seq<Controllers.Controller>, c: Controllers.Controller, flags: seq<string>, keep: Request -> bool)
    requires c in cs
    ensures forall x :: x in Kept(c, flags, keep) ==> x in KeptOf(cs, flags, keep)
  {
    hide Controllers.MadeBy;
    var init, last := cs[..|cs| - 1], cs[|cs| - 1];
    assert cs == init + [last];
    FilterAppend(Controllers.Made(init, flags), Controllers.MadeBy(last, flags), keep);
    if c != last { KeptIn(init, c, flags, keep); }
  }

  /** A controller that creates a config map named "config". */
  function Creator(name: string, body: string): Controllers.Controller
  {
    Controllers.Controller(name, [Creation(name, "config", body)], Controllers.Returns)
  }

  /** An input on which the shuffle decides: two controllers create the same config map, and what they write is kept.
      Only the request of the one that runs last is read back. */
  lemma ShuffleDecides(coding: Coding, first: string, second: string, body: string, keep: Request -> bool)
    requires Sound(coding) && first != second && coding.kindOf(body) == Some(GVK("", "v1", "ConfigMap"))
    requires keep(Creation(first, "config", body)) && keep(Creation(second, "config", body))
    ensures
      var c, d, flags := Creator(first, body), Creator(second, body), ["*"];
      && ReadsExactly(coding, FilesOf(coding, KeptOf([c, d], flags, keep)), {Creation(second, "config", body)})
      && ReadsExactly(coding, FilesOf(coding, KeptOf([d, c], flags, keep)), {Creation(first, "config", body)})
      && !NoClash(coding, [c, d], flags, keep)
  {
    hide ReadsExactly, FilesOf, Creation, NoClash, KeptOf;
    var c, d, flags := Creator(first, body), Creator(second, body), ["*"];
    var x, y := Creation(first, "config", body), Creation(second, "config", body);
    TwinsOverwrite(coding, first, second, body);
    KeptOfTwo(c, d, flags, keep, x, y);
    KeptOfTwo(d, c, flags, keep, y, x);
    ShuffleExactly(coding, [c, d], flags, keep);
    assert Shuffled([d, c], [c, d]);
    ReadsOneWay(coding, FilesOf(coding, [x, y]), x, y);
  }

  lemma ReadsOneWay(coding: Coding, files: map<string, string>, x: Request, y: Request)
    requires x != y
    ensures !(ReadsExactly(coding, files, {x}) && ReadsExactly(coding, files, {y}))
  {
    hide FoundAt, Readable, IsRead;
    assert x in {x} && x !in {y};
  }

  lemma KeptOfTwo(
    c: Controllers.Controller, d: Controllers.Controller, flags: seq<string>, keep: Request -> bool,
    x: Request, y: Request)
    requires flags == ["*"] && c.requests == [x] && d.requests == [y] && keep(x) && keep(y)
    ensures KeptOf([c, d], flags, keep) == [x, y]
  {
    AllEnabled(c.name);
    AllEnabled(d.name);
    assert [c, d][..1] == [c] && [c][..0] == [];
    assert Controllers.Made([c], flags) == [x];
    assert Controllers.Made([c, d], flags) == [x, y];
    assert [x, y][..1] == [x] && [x][..0] == [];
    assert Filter([x], keep) == [x];
  }

  lemma AllEnabled(name: string)
    ensures Controllers.Enabled(name, ["*"])
  {
    var flags := ["*"];
    assert flags[0] == "*";
    if name != "*" { assert ("-" + name)[0] == '-' && "*"[0] == '*'; }
  }
}
