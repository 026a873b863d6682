/** When requests written to a directory read back as they were. */
module MutationRoundTrip {
  import opened Seqs
  import opened GoStrings
  import opened Kube
  import opened Requests
  import opened MutationFiles
  import opened MutationNames
  import Paths

  lemma ReplaceBodyName(h: string, name: string, part: string)
    requires 'o' !in h
    ensures ReplaceFirst(BaseName(h, BODY, name), "body", part) == BaseName(h, part, name)
  {
    var rest := ['-'] + name + ".yaml";
    var tail := ['-'] + ("body" + rest);
    assert BaseName(h, BODY, name) == h + tail;
    assert BaseName(h, part, name) == h + (['-'] + (part + rest));
    assert ("body" + rest)[4..] == rest;
    assert ReplaceFirst("body" + rest, "body", part) == part + rest;
    hide ReplaceFirst;
    ReplaceBehind(h, tail, "body", part);
    ReplaceAfter(['-'], "body" + rest, "body", part);
  }

  lemma {:induction false} ReplaceChars(s: string, part: string, instead: string, ch: char)
    requires part != "" && ch !in s && ch !in instead
    ensures ch !in ReplaceFirst(s, part, instead)
  {
    if !(part <= s) && s != "" { ReplaceChars(s[1..], part, instead, ch); }
  }

  /** The name that the reader looks for beside a mistaken file. */
  function Renamed(k: FileKey, part: string): FileKey
  {
    k.(name := ReplaceFirst(k.name, "body", part))
  }

  lemma BodyInside(name: string, i: nat)
    requires i + 6 <= |name| && HasAt(['-'] + name, i, "-body-")
    ensures HasAt(name, i, "body")
  {
    var dashed := ['-'] + name;
    var found := dashed[i..i + 6];
    assert found[1] == 'b' && found[2] == 'o' && found[3] == 'd' && found[4] == 'y';
    assert name[i] == dashed[i + 1] && name[i + 1] == dashed[i + 2];
    assert name[i + 2] == dashed[i + 3] && name[i + 3] == dashed[i + 4];
    assert name[i..i + 4] == [name[i], name[i + 1], name[i + 2], name[i + 3]];
  }

  lemma RenamedIsOther(k: FileKey, part: string)
    requires PlainKey(k) && HidesBody(k.name) && (part == METADATA || part == OPTIONS)
    ensures PlainKey(Renamed(k, part)) && Renamed(k, part) != k
    ensures exists i: nat :: HasAt(k.name, i, "body")
  {
    var i: nat :| i + 6 <= |k.name| && HasAt(['-'] + k.name, i, "-body-");
    BodyInside(k.name, i);
    hide HidesBody, ReplaceFirst;
    ReplaceLength(k.name, i, "body", part);
    ReplaceChars(k.name, "body", part, '/');
    ReplaceChars(k.name, "body", part, '\n');
  }

  lemma ReplaceOtherName(k: FileKey, part: string, instead: string)
    requires PlainKey(k) && HidesBody(k.name)
    requires (part == METADATA || part == OPTIONS) && (instead == METADATA || instead == OPTIONS)
    ensures ReplaceFirst(BaseName(k.hash, part, k.name), "body", instead) ==
            BaseName(k.hash, part, Renamed(k, instead).name)
  {
    RenamedIsOther(k, instead);
    var i: nat :| HasAt(k.name, i, "body");
    hide ReplaceFirst, HidesBody;
    var front, back := ['-'] + part + ['-'], k.name + ".yaml";
    assert (front + back)[0] == '-' && 'b' !in front;
    BaseAgain(k.hash, part, k.name);
    hide PlainKey, BaseName;
    ReplaceBehind(k.hash, front + back, "body", instead);
    ReplaceAfter(front, back, "body", instead);
    ReplaceWithin(k.name, ".yaml", i, "body", instead);
    BaseAgain(k.hash, part, Renamed(k, instead).name);
  }

  lemma BaseAgain(h: string, part: string, name: string)
    ensures BaseName(h, part, name) == h + (['-'] + part + ['-'] + (name + ".yaml"))
  {
  }

  lemma SiblingKey(k: FileKey, part: string, base: string)
    requires PlainKey(k) && IsPart(part)
    ensures Sibling(Split(KeyPath(k, part), '/'), base) == JoinWith(k.directory + [base], '/')
  {
    KeySegments(k, part);
    var segs := Split(KeyPath(k, part), '/');
    assert segs[..|segs| - 1] == k.directory;
  }

  lemma BaseYaml(h: string, part: string, name: string)
    ensures HasSuffix(BaseName(h, part, name), ".yaml")
  {
  }

  /** A body file reads with the metadata and the options of its key. */
  lemma ReadAtBody(coding: Coding, files: map<string, string>, k: FileKey)
    requires PlainKey(k) && KeyPath(k, BODY) in files
    ensures ReadAt(coding, files, KeyPath(k, BODY)) ==
            if k.directory[0] !in ALL_ACTIONS || k.name == "" then Ignored
            else ReadParts(coding, files, k.directory[0], KeyPath(k, BODY), KeyPath(k, METADATA), KeyPath(k, OPTIONS))
  {
    hide ReadParts, MatchesBody, Split, Sibling;
    KeySegments(k, BODY);
    BaseYaml(k.hash, BODY, k.name);
    BodyMatches(k.hash, k.name);
    ReplaceBodyName(k.hash, k.name, METADATA);
    ReplaceBodyName(k.hash, k.name, OPTIONS);
    SiblingKey(k, BODY, BaseName(k.hash, METADATA, k.name));
    SiblingKey(k, BODY, BaseName(k.hash, OPTIONS, k.name));
  }

  /** Any other file is ignored, unless its name hides a body; then it is read as the body of a request whose other
      parts are looked for under another name. */
  lemma ReadAtOther(coding: Coding, files: map<string, string>, k: FileKey, part: string)
    requires PlainKey(k) && KeyPath(k, part) in files && (part == METADATA || part == OPTIONS)
    ensures ReadAt(coding, files, KeyPath(k, part)) ==
            if k.directory[0] !in ALL_ACTIONS || !HidesBody(k.name) then Ignored
            else ReadParts(
                   coding, files, k.directory[0], KeyPath(k, part), KeyPath(Renamed(k, METADATA), part),
                   KeyPath(Renamed(k, OPTIONS), part))
  {
    hide ReadParts, MatchesBody, HidesBody, Split, Sibling;
    KeySegments(k, part);
    BaseYaml(k.hash, part, k.name);
    OtherMatches(k.hash, part, k.name);
    if HidesBody(k.name) {
      ReplaceOtherName(k, part, METADATA);
      ReplaceOtherName(k, part, OPTIONS);
      SiblingKey(k, part, BaseName(k.hash, part, Renamed(k, METADATA).name));
      SiblingKey(k, part, BaseName(k.hash, part, Renamed(k, OPTIONS).name));
    }
  }

  /** What can be done to an object, or to its status. */
  predicate IsAction(action: string)
  {
    || action == "Create" || action == "Delete"
    || action == "Apply" || action == "Patch" || action == "Update"
    || action == "ApplyStatus" || action == "PatchStatus" || action == "UpdateStatus"
  }

  /** The request's own files suffice to read it back: the reader knows its action, it is named, and its kind is that of
      its body, or empty for a patch. */
  predicate SelfReads(coding: Coding, x: Request)
  {
    && IsAction(x.metadata.action)
    && FullName(x) != ""
    && (if x.metadata.action == "Patch" || x.metadata.action == "PatchStatus" then x.kindType == GVK("", "", "")
        else coding.kindOf(x.body) == Some(x.kindType))
  }

  /** The name of the request makes the reader take its other files for bodies. */
  predicate Mistaken(x: Request)
  {
    HidesBody(Safe(FullName(x)))
  }

  ghost predicate NoSharing(coding: Coding, xs: set<Request>)
  {
    forall x, y :: x in xs && y in xs && SharesFiles(coding, x, y) ==> x == y
  }

  ghost predicate AllPlain(xs: set<Request>)
  {
    forall x :: x in xs ==> PlainRequest(x)
  }

  ghost predicate AllSelfRead(coding: Coding, xs: set<Request>)
  {
    forall x :: x in xs ==> SelfReads(coding, x)
  }

  ghost predicate NoneMistaken(xs: set<Request>)
  {
    forall x :: x in xs ==> !Mistaken(x)
  }

  /** What the requests must meet to be read back exactly, in whatever company. */
  ghost predicate NoConflict(coding: Coding, xs: set<Request>)
  {
    AllSelfRead(coding, xs) && NoneMistaken(xs) && NoSharing(coding, xs)
  }

  ghost function Elements(xs: seq<Request>): set<Request>
  {
    set x | x in xs
  }

  /** A directory that held nothing before the requests were written, completely and in order. */
  function FilesOf(coding: Coding, xs: seq<Request>): map<string, string>
  {
    AfterComplete(coding, map[], xs)
  }

  lemma PutsAt(coding: Coding, x: Request, path: string)
    requires Sound(coding) && PlainRequest(x)
    ensures
      var k := KeyOf(coding, x);
      path in Puts(coding, x) <==>
        path == KeyPath(k, METADATA) || path == KeyPath(k, BODY) || (path == KeyPath(k, OPTIONS) && x.options != "")
    ensures Has(Puts(coding, x), KeyPath(KeyOf(coding, x), METADATA), coding.yaml(x.metadata))
    ensures Has(Puts(coding, x), KeyPath(KeyOf(coding, x), BODY), x.body)
    ensures x.options != "" ==> Has(Puts(coding, x), KeyPath(KeyOf(coding, x), OPTIONS), x.options)
  {
    hide PartPath, KeyPath, KeyOf;
    var k := KeyOf(coding, x);
    KeyIsPlain(coding, x);
    PartPathIsKeyPath(coding, x, METADATA);
    PartPathIsKeyPath(coding, x, BODY);
    PartPathIsKeyPath(coding, x, OPTIONS);
    KeyPathInjective(k, METADATA, k, BODY);
    KeyPathInjective(k, METADATA, k, OPTIONS);
    KeyPathInjective(k, BODY, k, OPTIONS);
  }

  /** Every file is a part of some request. */
  lemma FileOwner(coding: Coding, xs: seq<Request>, path: string) returns (x: Request, part: string)
    requires Sound(coding) && AllPlain(Elements(xs)) && path in FilesOf(coding, xs)
    ensures x in xs && IsPart(part) && path == KeyPath(KeyOf(coding, x), part)
    ensures part == OPTIONS ==> x.options != ""
    ensures Has(Puts(coding, x), path, FilesOf(coding, xs)[path])
  {
    hide Puts, KeyPath, KeyOf;
    AfterCompleteAt(coding, map[], xs, path);
    LastPutIn(coding, xs, path);
    x :| x in xs && path in Puts(coding, x) && LastPut(coding, xs, path).value == Puts(coding, x)[path];
    assert x in Elements(xs);
    PutsAt(coding, x, path);
    var k := KeyOf(coding, x);
    part := if path == KeyPath(k, METADATA) then METADATA else if path == KeyPath(k, BODY) then BODY else OPTIONS;
  }

  /** The files of a written request are there. */
  lemma FilesThere(coding: Coding, xs: seq<Request>, x: Request)
    requires Sound(coding) && AllPlain(Elements(xs)) && x in xs
    ensures KeyPath(KeyOf(coding, x), METADATA) in FilesOf(coding, xs)
    ensures KeyPath(KeyOf(coding, x), BODY) in FilesOf(coding, xs)
    ensures x.options != "" ==> KeyPath(KeyOf(coding, x), OPTIONS) in FilesOf(coding, xs)
  {
    hide Puts, KeyPath, KeyOf;
    assert x in Elements(xs);
    var k := KeyOf(coding, x);
    forall part | IsPart(part) &&
      (part == OPTIONS ==> x.options != "") ensures KeyPath(k, part) in FilesOf(coding, xs) {
      PutsAt(coding, x, KeyPath(k, part));
      AfterCompleteAt(coding, map[], xs, KeyPath(k, part));
      LastPutIn(coding, xs, KeyPath(k, part));
    }
  }

  /** Where no two requests share files, those of a request hold its parts. */
  lemma OwnFiles(coding: Coding, xs: seq<Request>, x: Request)
    requires Sound(coding) && AllPlain(Elements(xs)) && NoSharing(coding, Elements(xs)) && x in xs
    ensures
      var files, k := FilesOf(coding, xs), KeyOf(coding, x);
      && Has(files, KeyPath(k, METADATA), coding.yaml(x.metadata))
      && Has(files, KeyPath(k, BODY), x.body)
      && (KeyPath(k, OPTIONS) in files <==> x.options != "")
      && (x.options != "" ==> Has(files, KeyPath(k, OPTIONS), x.options))
  {
    hide Puts, KeyPath, KeyOf, FilesOf, SharesFiles;
    var files, k := FilesOf(coding, xs), KeyOf(coding, x);
    FilesThere(coding, xs, x);
    assert x in Elements(xs);
    KeyIsPlain(coding, x);
    forall part | IsPart(part) && KeyPath(k, part) in files
      ensures Has(Puts(coding, x), KeyPath(k, part), files[KeyPath(k, part)])
      ensures part == OPTIONS ==> x.options != ""
    {
      var y, part' := FileOwner(coding, xs, KeyPath(k, part));
      assert y in Elements(xs);
      KeyIsPlain(coding, y);
      KeyPathInjective(k, part, KeyOf(coding, y), part');
      SharesFilesExactly(coding, x, y);
    }
    PutsAt(coding, x, KeyPath(k, BODY));
  }

  /** Where no two requests share files, a body file reads as its request, if that can be read from its own files. */
  lemma OwnReading(coding: Coding, xs: seq<Request>, x: Request)
    requires Sound(coding) && AllPlain(Elements(xs)) && NoSharing(coding, Elements(xs)) && x in xs
    requires SelfReads(coding, x)
    ensures FoundAt(coding, FilesOf(coding, xs), KeyPath(KeyOf(coding, x), BODY), x)
  {
    hide KeyPath, FilesOf, SharesFiles, ReadAt, PlainRequest, KeyOf, FullName;
    var files, k := FilesOf(coding, xs), KeyOf(coding, x);
    assert x in Elements(xs);
    OwnFiles(coding, xs, x);
    KeyIsPlain(coding, x);
    ActionKept(coding, x);
    ReadAtBody(coding, files, k);
  }

  lemma ActionKept(coding: Coding, x: Request)
    requires PlainRequest(x)
    ensures KeyOf(coding, x).directory[0] == x.metadata.action
    ensures KeyOf(coding, x).name == "" <==> FullName(x) == ""
  {
    SafeChars(x.metadata.action);
    SafeChars(FullName(x));
    DirectoryPlain(x);
  }

  /** The body files of the requests. */
  ghost function BodyPaths(coding: Coding, xs: set<Request>): set<string>
  {
    set x | x in xs :: PartPath(coding, x, BODY)
  }

  /** Without mistaken names only body files read as requests. */
  lemma OnlyBodiesRead(coding: Coding, xs: seq<Request>, path: string)
    requires Sound(coding) && AllPlain(Elements(xs)) && NoneMistaken(Elements(xs))
    requires path in FilesOf(coding, xs) && ReadAt(coding, FilesOf(coding, xs), path) != Ignored
    ensures path in BodyPaths(coding, Elements(xs))
  {
    hide KeyPath, FilesOf, ReadAt, HidesBody, PartPath;
    var x, part := FileOwner(coding, xs, path);
    assert x in Elements(xs);
    KeyIsPlain(coding, x);
    if part == BODY {
      PartPathIsKeyPath(coding, x, BODY);
    } else {
      assert !Mistaken(x);
      ReadAtOther(coding, FilesOf(coding, xs), KeyOf(coding, x), part);
    }
  }

  /** Complete writes read back exactly, each request once, if the requests conflict in no way. */
  lemma ConflictFreeReadsBack(coding: Coding, xs: seq<Request>)
    requires Sound(coding) && AllPlain(Elements(xs)) && NoConflict(coding, Elements(xs))
    ensures ReadsExactly(coding, FilesOf(coding, xs), Elements(xs))
  {
    hide KeyPath, FilesOf, ReadAt, SharesFiles, SelfReads, Mistaken, PartPath, NoSharing;
    var files := FilesOf(coding, xs);
    forall x | x in xs ensures FoundAt(coding, files, PartPath(coding, x, BODY), x) {
      assert x in Elements(xs);
      OwnReading(coding, xs, x);
      PartPathIsKeyPath(coding, x, BODY);
    }
    forall path | path in files
      ensures ReadAt(coding, files, path) != Unreadable
      ensures forall x :: FoundAt(coding, files, path, x) ==> x in xs && path == PartPath(coding, x, BODY)
    {
      if ReadAt(coding, files, path) != Ignored {
        OnlyBodiesRead(coding, xs, path);
        var x :| x in Elements(xs) && path == PartPath(coding, x, BODY);
        assert FoundAt(coding, files, path, x);
      }
    }
    forall x ensures x in Elements(xs) <==> IsRead(coding, files, x) {
      if x in Elements(xs) { assert FoundAt(coding, files, PartPath(coding, x, BODY), x); }
    }
    forall x, p, q | FoundAt(coding, files, p, x) && FoundAt(coding, files, q, x) ensures p == q {
      assert p in files && q in files;
    }
  }

  /** Whatever reads back exactly is no more than there are files it is read from. */
  lemma ReadsFromPaths(coding: Coding, files: map<string, string>, xs: set<Request>, paths: set<string>)
    requires ReadsExactly(coding, files, xs)
    requires forall path :: path in files && ReadAt(coding, files, path).Found? ==> path in paths
    ensures |xs| <= |paths|
  {
    hide ReadAt;
    var found := set path | path in files && ReadAt(coding, files, path).Found?;
    var read := (path: string) =>
      if path in files && ReadAt(coding, files, path).Found? then Some(ReadAt(coding, files, path).request) else None;
    ImageSize(found, read);
    var some := (x: Request) => Some(x);
    ImageSize(xs, some);
    forall x | x in xs ensures Some(x) in Image(found, read) {
      var path :| FoundAt(coding, files, path, x);
      assert path in found && read(path) == Some(x);
    }
    SubsetSize(Image(xs, some), Image(found, read));
    SubsetSize(found, paths);
  }

  lemma SubsetSize<T>(a: set<T>, b: set<T>)
    requires a <= b
    ensures |a| <= |b|
  {
    assert b == a + (b - a);
  }

  /** Without mistaken names, requests that can be read from their own files read back exactly if and only if no two of
      them share files. */
  lemma SharingExactly(coding: Coding, xs: seq<Request>)
    requires Sound(coding) && AllPlain(Elements(xs))
    requires AllSelfRead(coding, Elements(xs)) && NoneMistaken(Elements(xs))
    ensures ReadsExactly(coding, FilesOf(coding, xs), Elements(xs)) <==> NoSharing(coding, Elements(xs))
  {
    hide ReadAt, FilesOf, PartPath, SelfReads, Mistaken;
    var ws := Elements(xs);
    if NoSharing(coding, ws) { ConflictFreeReadsBack(coding, xs); }
    if ReadsExactly(coding, FilesOf(coding, xs), ws) {
      forall path | path in FilesOf(coding, xs) && ReadAt(coding, FilesOf(coding, xs), path).Found?
        ensures path in BodyPaths(coding, ws)
      {
        OnlyBodiesRead(coding, xs, path);
      }
      ReadsFromPaths(coding, FilesOf(coding, xs), ws, BodyPaths(coding, ws));
      EnoughPaths(coding, ws);
    }
  }

  /** As many body files as requests: no two requests share files. */
  lemma EnoughPaths(coding: Coding, xs: set<Request>)
    requires |xs| <= |BodyPaths(coding, xs)|
    ensures NoSharing(coding, xs)
  {
    hide PartPath;
    var path := (x: Request) => PartPath(coding, x, BODY);
    ImageSize(xs, path);
    assert BodyPaths(coding, xs) == Image(xs, path);
    forall x, y | x in xs && y in xs && SharesFiles(coding, x, y) ensures x == y {
      assert path(x) == path(y);
    }
  }

  /** Where no two share files, requests that can be read from their own files read back exactly if and only if none
      has a name that makes the reader take its other files for bodies. */
  lemma MistakesExactly(coding: Coding, xs: seq<Request>)
    requires Sound(coding) && AllPlain(Elements(xs))
    requires AllSelfRead(coding, Elements(xs)) && NoSharing(coding, Elements(xs))
    ensures ReadsExactly(coding, FilesOf(coding, xs), Elements(xs)) <==> NoneMistaken(Elements(xs))
  {
    hide ReadAt, FilesOf, PartPath, KeyPath, KeyOf, SharesFiles, ReadParts, HidesBody, NoSharing, PlainRequest;
    var files := FilesOf(coding, xs);
    if NoneMistaken(Elements(xs)) { ConflictFreeReadsBack(coding, xs); }
    if ReadsExactly(coding, files, Elements(xs)) {
      forall z | z in Elements(xs) ensures !Mistaken(z) {
        var k := KeyOf(coding, z);
        var path := KeyPath(k, METADATA);
        FilesThere(coding, xs, z);
        KeyIsPlain(coding, z);
        OtherIsNoBody(coding, xs, z, path);
        KeyNamed(coding, z);
        ReadAtOther(coding, files, k, METADATA);
        ActionKept(coding, z);
        PartsAreFound(
          coding, files, k.directory[0], path, KeyPath(Renamed(k, METADATA), METADATA),
          KeyPath(Renamed(k, OPTIONS), METADATA));
      }
    }
  }

  lemma KeyNamed(coding: Coding, x: Request)
    ensures KeyOf(coding, x).name == Safe(FullName(x))
  {
  }

  lemma PartsAreFound(
    coding: Coding, files: map<string, string>, action: string, path: string, metadataPath: string, optionsPath: string)
    requires path in files
    ensures !ReadParts(coding, files, action, path, metadataPath, optionsPath).Ignored?
  {
  }

  /** What reads exactly cannot also be found at the metadata file of a request. */
  lemma OtherIsNoBody(coding: Coding, xs: seq<Request>, z: Request, path: string)
    requires Sound(coding) && AllPlain(Elements(xs)) && NoSharing(coding, Elements(xs)) && z in xs
    requires AllSelfRead(coding, Elements(xs)) && ReadsExactly(coding, FilesOf(coding, xs), Elements(xs))
    requires path == KeyPath(KeyOf(coding, z), METADATA) && path in FilesOf(coding, xs)
    ensures ReadAt(coding, FilesOf(coding, xs), path) == Ignored
  {
    hide ReadAt, FilesOf, PartPath, KeyPath, KeyOf, SharesFiles, NoSharing, PlainRequest;
    var files := FilesOf(coding, xs);
    match ReadAt(coding, files, path) {
      case Ignored =>
      case Unreadable =>
      case Found(r) =>
        assert FoundAt(coding, files, path, r);
        assert r in Elements(xs) && z in Elements(xs);
        OwnReading(coding, xs, r);
        KeyIsPlain(coding, z);
        KeyIsPlain(coding, r);
        KeyPathInjective(KeyOf(coding, z), METADATA, KeyOf(coding, r), BODY);
    }
  }

  lemma OwnerOfOne(coding: Coding, x: Request, k: FileKey, part: string)
    requires Sound(coding) && PlainRequest(x) && PlainKey(k) && IsPart(part)
    requires KeyPath(k, part) in FilesOf(coding, [x])
    ensures k == KeyOf(coding, x)
  {
    hide KeyPath, FilesOf, KeyOf, PlainRequest;
    var y, part' := FileOwner(coding, [x], KeyPath(k, part));
    KeyIsPlain(coding, x);
    KeyPathInjective(k, part, KeyOf(coding, x), part');
  }

  /** A mistaken file of a request alone has no metadata beside it. */
  lemma MistakenAlone(coding: Coding, x: Request, part: string)
    requires Sound(coding) && PlainRequest(x) && Mistaken(x) && x.metadata.action in ALL_ACTIONS
    requires part == METADATA || part == OPTIONS
    requires KeyPath(KeyOf(coding, x), part) in FilesOf(coding, [x])
    ensures ReadAt(coding, FilesOf(coding, [x]), KeyPath(KeyOf(coding, x), part)) == Unreadable
  {
    hide KeyPath, FilesOf, KeyOf, PlainRequest, HidesBody, ReadAt;
    var k := KeyOf(coding, x);
    KeyIsPlain(coding, x);
    KeyNamed(coding, x);
    ActionKept(coding, x);
    ReadAtOther(coding, FilesOf(coding, [x]), k, part);
    RenamedIsOther(k, METADATA);
    if KeyPath(Renamed(k, METADATA), part) in FilesOf(coding, [x]) {
      OwnerOfOne(coding, x, Renamed(k, METADATA), part);
    }
  }

  lemma NoSharingAlone(coding: Coding, x: Request)
    ensures Elements([x]) == {x} && NoSharing(coding, {x})
  {
  }

  /** The body file of a request alone reads as the request only if it can be read from its own files. */
  lemma ReadFromBody(coding: Coding, x: Request)
    requires Sound(coding) && PlainRequest(x)
    requires FoundAt(coding, FilesOf(coding, [x]), KeyPath(KeyOf(coding, x), BODY), x)
    ensures SelfReads(coding, x)
  {
    hide KeyPath, FilesOf, KeyOf, PlainRequest, ReadAt, FullName, NoSharing;
    NoSharingAlone(coding, x);
    OwnFiles(coding, [x], x);
    KeyIsPlain(coding, x);
    ActionKept(coding, x);
    ReadAtBody(coding, FilesOf(coding, [x]), KeyOf(coding, x));
  }

  /** A request alone reads back exactly if and only if it can be read from its own files and is not mistaken. */
  lemma AloneExactly(coding: Coding, x: Request)
    requires Sound(coding) && PlainRequest(x)
    ensures ReadsExactly(coding, FilesOf(coding, [x]), {x}) <==> SelfReads(coding, x) && !Mistaken(x)
  {
    hide KeyPath, FilesOf, KeyOf, PlainRequest, ReadAt, SelfReads, HidesBody, NoSharing;
    var files, k := FilesOf(coding, [x]), KeyOf(coding, x);
    NoSharingAlone(coding, x);
    if SelfReads(coding, x) && !Mistaken(x) { ConflictFreeReadsBack(coding, [x]); }
    if ReadsExactly(coding, files, {x}) {
      assert IsRead(coding, files, x);
      var path :| FoundAt(coding, files, path, x);
      var y, part := FileOwner(coding, [x], path);
      KeyIsPlain(coding, x);
      KeyNamed(coding, x);
      ActionKept(coding, x);
      if part == BODY {
        ReadFromBody(coding, x);
        KnownAction(coding, x);
        FilesThere(coding, [x], x);
        if Mistaken(x) { MistakenAlone(coding, x, METADATA); }
      } else {
        ReadAtOther(coding, files, k, part);
        MistakenAlone(coding, x, part);
      }
    }
  }

  lemma KnownAction(coding: Coding, x: Request)
    requires SelfReads(coding, x)
    ensures x.metadata.action in ALL_ACTIONS
  {
  }

  /** Complete writes into an empty directory read back as exactly what was written, each request once, whichever of
      the wanted requests are written and in whatever order, if and only if the wanted requests conflict in no way:
      each can be read from its own files, none has a name that makes the reader mistake a file, and no two share
      files. */
  lemma ReadsBackExactly(coding: Coding, wanted: set<Request>)
    requires Sound(coding) && AllPlain(wanted)
    ensures NoConflict(coding, wanted) <==>
            forall xs: seq<Request> :: Elements(xs) <= wanted ==>
              ReadsExactly(coding, FilesOf(coding, xs), Elements(xs))
  {
    hide FilesOf, SelfReads, Mistaken, ReadsExactly, SharesFiles, PlainRequest;
    if NoConflict(coding, wanted) {
      forall xs: seq<Request> | Elements(xs) <= wanted ensures ReadsExactly(coding, FilesOf(coding, xs), Elements(xs)) {
        ConflictFreeReadsBack(coding, xs);
      }
    }
    if forall xs: seq<Request> :: Elements(xs) <= wanted ==> ReadsExactly(coding, FilesOf(coding, xs), Elements(xs)) {
      forall x | x in wanted ensures SelfReads(coding, x) && !Mistaken(x) {
        NoSharingAlone(coding, x);
        AloneExactly(coding, x);
      }
      forall x, y | x in wanted && y in wanted && SharesFiles(coding, x, y) ensures x == y {
        assert Elements([x, y]) == {x, y};
        SharingExactly(coding, [x, y]);
        assert x in Elements([x, y]) && y in Elements([x, y]);
      }
    }
  }

  /** Of two requests that share files the later one is left, unless only the earlier one has options: those stay. */
  lemma LaterWins(coding: Coding, x: Request, y: Request)
    requires Sound(coding) && PlainRequest(x) && PlainRequest(y) && SharesFiles(coding, x, y)
    requires x.options == "" || y.options != ""
    ensures FilesOf(coding, [x, y]) == FilesOf(coding, [y])
  {
    hide PartPath, KeyPath, KeyOf, Puts, FilesOf;
    SharesFilesExactly(coding, x, y);
    FilesOfTwo(coding, x, y);
    forall path | path in Puts(coding, x) ensures path in Puts(coding, y) {
      PutsAt(coding, x, path);
      PutsAt(coding, y, path);
    }
  }

  lemma FilesOfTwo(coding: Coding, x: Request, y: Request)
    ensures FilesOf(coding, [x]) == Puts(coding, x) && FilesOf(coding, [y]) == Puts(coding, y)
    ensures FilesOf(coding, [x, y]) == Puts(coding, x) + Puts(coding, y)
  {
    hide Puts;
    var two := [x, y];
    assert two[..|two| - 1] == [x] && [x][..0] == [] && [y][..0] == [];
    assert AfterComplete(coding, map[], [x]) == map[] + Puts(coding, x);
    assert AfterComplete(coding, map[], two) == AfterComplete(coding, map[], [x]) + Puts(coding, y);
  }

  /** The creation of a config map by a controller. */
  function Creation(controller: string, name: string, body: string): Request
  {
    Request(
      Metadata("Create", GVR("", "v1", "configmaps"), "openshift", name, "", "", "", controller),
      GVK("", "v1", "ConfigMap"), "", body)
  }

  lemma CreationPlain(coding: Coding, controller: string, name: string, body: string)
    requires coding.kindOf(body) == Some(GVK("", "v1", "ConfigMap"))
    requires name != "" && '/' !in name && '\n' !in name
    ensures PlainRequest(Creation(controller, name, body))
    ensures SelfReads(coding, Creation(controller, name, body))
  {
    assert "Create" == ALL_ACTIONS[2];
    assert Paths.Plain("Create") && ':' !in "Create" && Paths.Plain("openshift") && Paths.Plain("configmaps");
    assert name + "" == name;
  }

  /** An input that loses a request: two controllers create the same config map. Both requests are tracked and written
      completely, and only the later one is read back; which one that is depends on the shuffle. */
  lemma TwinsOverwrite(coding: Coding, first: string, second: string, body: string)
    requires Sound(coding) && first != second && coding.kindOf(body) == Some(GVK("", "v1", "ConfigMap"))
    ensures
      var x, y := Creation(first, "config", body), Creation(second, "config", body);
      && x != y && SharesFiles(coding, x, y)
      && ReadsExactly(coding, FilesOf(coding, [x, y]), {y})
      && ReadsExactly(coding, FilesOf(coding, [y, x]), {x})
  {
    hide PartPath, ReadsExactly, SelfReads, FilesOf;
    var x, y := Creation(first, "config", body), Creation(second, "config", body);
    CreationPlain(coding, first, "config", body);
    CreationPlain(coding, second, "config", body);
    TwinsShare(coding, x, y);
    LaterWins(coding, x, y);
    LaterWins(coding, y, x);
    ConfigNotMistaken();
    AloneExactly(coding, x);
    AloneExactly(coding, y);
  }

  /** The controller instance does not occur in the names of files. */
  lemma TwinsShare(coding: Coding, x: Request, y: Request)
    requires x.metadata == y.metadata.(controllerInstanceName := x.metadata.controllerInstanceName)
    requires x.body == y.body && x.options == y.options
    ensures SharesFiles(coding, x, y) && SharesFiles(coding, y, x)
  {
  }

  lemma ConfigNotMistaken()
    ensures !HidesBody(Safe("config" + ""))
  {
    SafeChars("config");
    assert "config" + "" == "config";
    var dashed := ['-'] + "config";
    forall i: nat | i + 6 <= |"config"| ensures !HasAt(dashed, i, "-body-") {
      assert dashed[i..i + 6][1] == 'c';
    }
  }

  /** Inputs that make a directory unreadable: one object whose name contains "-body-" with something behind it. */
  lemma BodyInName(coding: Coding, controller: string, front: string, back: string, body: string)
    requires Sound(coding) && coding.kindOf(body) == Some(GVK("", "v1", "ConfigMap"))
    requires back != "" && forall ch :: ch in front + back ==> ch != '/' && ch != '\n' && ch != ':'
    ensures !Readable(coding, FilesOf(coding, [Creation(controller, front + "-body-" + back, body)]))
  {
    hide PartPath, SelfReads, FilesOf, KeyPath, KeyOf, ReadAt, PlainRequest, HidesBody, Safe;
    var name := front + "-body-" + back;
    var x := Creation(controller, name, body);
    forall ch | ch in name ensures ch != '/' && ch != '\n' && ch != ':' {
      assert ch in front + back || ch in "-body-";
    }
    CreationPlain(coding, controller, name, body);
    BodyIsHidden(front, back);
    SafeChars(name);
    assert FullName(x) == name;
    FilesThere(coding, [x], x);
    assert x.metadata.action == ALL_ACTIONS[2];
    MistakenAlone(coding, x, METADATA);
  }

  lemma BodyIsHidden(front: string, back: string)
    requires back != ""
    ensures HidesBody(front + "-body-" + back)
  {
    var dashed := ['-'] + (front + "-body-" + back);
    HasAtBetween(['-'] + front, "-body-", back, 0, "-body-");
    assert dashed == ['-'] + front + "-body-" + back;
    assert HasAt(dashed, 1 + |front|, "-body-");
  }
}
