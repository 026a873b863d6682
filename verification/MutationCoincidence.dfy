/** How sharing files and a mistaken name can cancel out, so that requests read back exactly in spite of both. */
module MutationCoincidence {
  import opened Seqs
  import opened GoStrings
  import opened Kube
  import opened Requests
  import opened MutationFiles
  import opened MutationNames
  import opened MutationRoundTrip
  import Paths

  /** Patches `x` and `y` share files and differ in their options. The name of `z` hides a body, its metadata file would
      be the body of `x`, and the metadata that the reader looks for beside it is that of `y`. */
  ghost predicate Coincides(coding: Coding, x: Request, y: Request, z: Request)
  {
    var mistaken := KeyOf(coding, z);
    && PlainRequest(y) && PlainRequest(z) && SelfReads(coding, y) && SelfReads(coding, z)
    && z.metadata.action == "Patch" && !Mistaken(y) && Mistaken(z)
    && x == y.(options := "") && y.options != "" && z.options == "" && y.kindType == GVK("", "", "")
    && KeyOf(coding, x) == KeyOf(coding, y) == Renamed(mistaken, METADATA)
    && Renamed(mistaken, OPTIONS) != KeyOf(coding, y)
    && y.body == coding.yaml(z.metadata)
  }

  lemma OverwrittenFiles(coding: Coding, x: Request, y: Request, z: Request)
    requires Sound(coding) && Coincides(coding, x, y, z)
    ensures PlainRequest(x) && SharesFiles(coding, x, y)
    ensures FilesOf(coding, [x, y, z]) == FilesOf(coding, [y, z])
  {
    hide PartPath, KeyOf, Puts, SelfReads, Mistaken, Paths.Plain;
    assert FullName(x) == FullName(y);
    SharesFilesExactly(coding, x, y);
    LaterWins(coding, x, y);
    var three, two := [x, y, z], [y, z];
    assert three[..|three| - 1] == [x, y] && two[..|two| - 1] == [y];
  }

  lemma PairApart(coding: Coding, x: Request, y: Request, z: Request)
    requires Sound(coding) && Coincides(coding, x, y, z)
    ensures Elements([y, z]) == {y, z} && AllPlain({y, z}) && NoSharing(coding, {y, z})
    ensures KeyOf(coding, y) != KeyOf(coding, z) && PlainKey(KeyOf(coding, z))
    ensures Renamed(KeyOf(coding, z), OPTIONS) != KeyOf(coding, z) && PlainKey(Renamed(KeyOf(coding, z), OPTIONS))
    ensures HidesBody(KeyOf(coding, z).name) && !HidesBody(KeyOf(coding, y).name)
    ensures KeyOf(coding, z).directory[0] == "Patch" && "Patch" in ALL_ACTIONS
  {
    hide PartPath, SharesFiles, PlainRequest, SelfReads, HidesBody, KeyOf, PlainKey;
    KeyNamed(coding, y);
    KeyNamed(coding, z);
    KeyIsPlain(coding, z);
    ActionKept(coding, z);
    KnownAction(coding, z);
    RenamedIsOther(KeyOf(coding, z), METADATA);
    RenamedIsOther(KeyOf(coding, z), OPTIONS);
    SharesFilesExactly(coding, y, z);
    SharesFilesExactly(coding, z, y);
  }

  /** The metadata file of `z` reads as `x`. */
  lemma ReadsOverwritten(coding: Coding, x: Request, y: Request, z: Request)
    requires Sound(coding) && Coincides(coding, x, y, z)
    ensures FoundAt(coding, FilesOf(coding, [y, z]), KeyPath(KeyOf(coding, z), METADATA), x)
  {
    hide KeyPath, FilesOf, SharesFiles, PlainRequest, SelfReads, HidesBody, KeyOf, ReadAt, Renamed, PlainKey, FullName;
    var files, k := FilesOf(coding, [y, z]), KeyOf(coding, z);
    PairApart(coding, x, y, z);
    OwnFiles(coding, [y, z], y);
    OwnFiles(coding, [y, z], z);
    ReadAtOther(coding, files, k, METADATA);
    if KeyPath(Renamed(k, OPTIONS), METADATA) in files {
      var w, part := FileOwner(coding, [y, z], KeyPath(Renamed(k, OPTIONS), METADATA));
      KeyIsPlain(coding, w);
      KeyPathInjective(Renamed(k, OPTIONS), METADATA, KeyOf(coding, w), part);
    }
  }

  /** What each file reads as. */
  lemma ReadsNothingElse(coding: Coding, x: Request, y: Request, z: Request, path: string)
    requires Sound(coding) && Coincides(coding, x, y, z) && path in FilesOf(coding, [y, z])
    ensures
      var files := FilesOf(coding, [y, z]);
      || ReadAt(coding, files, path) == Ignored
      || (FoundAt(coding, files, path, x) && path == KeyPath(KeyOf(coding, z), METADATA))
      || (FoundAt(coding, files, path, y) && path == KeyPath(KeyOf(coding, y), BODY))
      || (FoundAt(coding, files, path, z) && path == KeyPath(KeyOf(coding, z), BODY))
  {
    hide KeyPath, FilesOf, SharesFiles, PlainRequest, SelfReads, HidesBody, KeyOf, ReadAt, Renamed, PlainKey, FullName,
      Puts;
    PairApart(coding, x, y, z);
    var w, part := FileOwner(coding, [y, z], path);
    KeyIsPlain(coding, w);
    if part == BODY {
      OwnReading(coding, [y, z], w);
    } else if w == y {
      ReadAtOther(coding, FilesOf(coding, [y, z]), KeyOf(coding, y), part);
    } else {
      ReadsOverwritten(coding, x, y, z);
    }
  }

  /** Three requests, two of which share files and one of which is mistaken, can read back exactly: the reader takes
      the metadata file of the mistaken one for the body of the overwritten one. So neither defect alone can be
      concluded from what one set of requests reads back as when both may be there; `ReadsBackExactly` looks at every
      part of the set. */
  lemma Coincidence(coding: Coding, x: Request, y: Request, z: Request)
    requires Sound(coding) && Coincides(coding, x, y, z)
    ensures SharesFiles(coding, x, y) && x != y && Mistaken(z)
    ensures ReadsExactly(coding, FilesOf(coding, [x, y, z]), {x, y, z})
  {
    hide KeyPath, FilesOf, SharesFiles, PlainRequest, SelfReads, HidesBody, KeyOf, ReadAt, Renamed, PlainKey, FullName;
    var files := FilesOf(coding, [y, z]);
    OverwrittenFiles(coding, x, y, z);
    PairApart(coding, x, y, z);
    OwnReading(coding, [y, z], y);
    OwnReading(coding, [y, z], z);
    ReadsOverwritten(coding, x, y, z);
    forall path | path in files
      ensures ReadAt(coding, files, path) != Unreadable
      ensures forall r :: FoundAt(coding, files, path, r) ==> r in {x, y, z}
    {
      ReadsNothingElse(coding, x, y, z, path);
    }
    forall r, p, q | FoundAt(coding, files, p, r) && FoundAt(coding, files, q, r) ensures p == q {
      ReadsNothingElse(coding, x, y, z, p);
      ReadsNothingElse(coding, x, y, z, q);
    }
    assert x != y && x != z && y != z;
  }

  /** A patch of a config map. */
  function PatchOf(name: string): Metadata
  {
    Metadata("Patch", GVR("", "v1", "configmaps"), "openshift", name, "", "", "", "")
  }

  function Patch(name: string, options: string, body: string): Request
  {
    Request(PatchOf(name), GVK("", "", ""), options, body)
  }

  lemma PatchKey(coding: Coding, name: string, options: string, body: string)
    requires body != "" && ':' !in name && '/' !in name && '\n' !in name && name != ""
    ensures PlainRequest(Patch(name, options, body)) && SelfReads(coding, Patch(name, options, body))
    ensures KeyOf(coding, Patch(name, options, body)) ==
            FileKey(SafeAll(Directory(Patch("", "", ""))), coding.hash(body), name)
    ensures Mistaken(Patch(name, options, body)) <==> HidesBody(name)
  {
    hide SafeAll, Safe, HidesBody;
    assert "Patch" == ALL_ACTIONS[4];
    assert Paths.Plain("Patch") && ':' !in "Patch" && Paths.Plain("openshift") && Paths.Plain("configmaps");
    assert name + "" == name;
    SafeChars(name);
  }

  lemma ExampleRenamed(part: string)
    requires part == METADATA || part == OPTIONS
    ensures ReplaceFirst("p-body-q", "body", part) == "p-" + part + "-q"
  {
    assert "p-" + ("body" + "-q") == "p-body-q";
    assert ("body" + "-q")[4..] == "-q";
    assert ReplaceFirst("body" + "-q", "body", part) == part + "-q";
    hide ReplaceFirst;
    ReplaceAfter("p-", "body" + "-q", "body", part);
  }

  lemma ExampleHides()
    ensures HidesBody("p-body-q") && !HidesBody("p-metadata-q")
  {
    BodyIsHidden("p", "q");
    assert "p" + "-body-" + "q" == "p-body-q";
    var dashed := ['-'] + "p-metadata-q";
    forall i: nat | i + 6 <= |"p-metadata-q"| ensures !HasAt(dashed, i, "-body-") {
      assert dashed[i..i + 6][1] == dashed[i + 1] != 'b';
    }
  }

  /** An input on which they cancel out. */
  lemma CoincidenceInput(coding: Coding, body: string)
    requires Sound(coding) && body == coding.yaml(PatchOf("p-body-q")) && body != ""
    ensures Coincides(
              coding, Patch("p-metadata-q", "", body), Patch("p-metadata-q", "{}", body), Patch("p-body-q", "", body))
  {
    hide KeyOf, SafeAll, Directory, PlainRequest, SelfReads, ReplaceFirst, HidesBody, Mistaken;
    PatchKey(coding, "p-metadata-q", "", body);
    PatchKey(coding, "p-metadata-q", "{}", body);
    PatchKey(coding, "p-body-q", "", body);
    ExampleHides();
    ExampleRenamed(METADATA);
    ExampleRenamed(OPTIONS);
    assert "p-" + METADATA + "-q" == "p-metadata-q";
    assert |"p-" + OPTIONS + "-q"| != |"p-metadata-q"|;
  }
}
