/** The paths of a request's files in plain words, and what writing the files of one request leaves. */
module MutationPaths {
  import opened GoStrings
  import opened Kube
  import opened Requests
  import opened MutationFiles
  import opened MutationNames
  import opened MutationRoundTrip
  import opened OutputFiles
  import Paths

  /** The path of a part, but for colons. */
  function Spelled(x: Request, hash: string, part: string): string
  {
    var m := x.metadata;
    m.action + "/" +
    ((if m.namespace == "" then "cluster-scoped-resources" else "namespaces/" + m.namespace) + "/" +
     ((if m.resourceType.group == "" then "core" else m.resourceType.group) + "/" +
      (m.resourceType.resource + "/" + (hash + "-" + part + "-" + m.name + m.generateName + ".yaml"))))
  }

  lemma JoinSpelled(x: Request, hash: string, part: string)
    ensures JoinWith(Directory(x) + [BaseName(hash, part, FullName(x))], '/') == Spelled(x, hash, part)
  {
    hide JoinWith;
    var m := x.metadata;
    var base := BaseName(hash, part, FullName(x));
    var group := if |m.resourceType.group| == 0 then "core" else m.resourceType.group;
    assert JoinWith([base], '/') == base by { assert |[base]| == 1; JoinOne(base); }
    assert base == hash + "-" + part + "-" + m.name + m.generateName + ".yaml";
    JoinBehind(m.resourceType.resource, [base]);
    JoinBehind(group, [m.resourceType.resource] + [base]);
    var behind := [group] + ([m.resourceType.resource] + [base]);
    if |m.namespace| > 0 {
      JoinBehind(m.namespace, behind);
      JoinBehind("namespaces", [m.namespace] + behind);
      JoinBehind(m.action, ["namespaces"] + ([m.namespace] + behind));
      assert Directory(x) + [base] == [m.action] + (["namespaces"] + ([m.namespace] + behind));
      SlashTwice("namespaces", m.namespace, JoinWith(behind, '/'));
    } else {
      JoinBehind("cluster-scoped-resources", behind);
      JoinBehind(m.action, ["cluster-scoped-resources"] + behind);
      assert Directory(x) + [base] == [m.action] + (["cluster-scoped-resources"] + behind);
    }
  }

  lemma SlashTwice(a: string, b: string, c: string)
    ensures a + "/" + (b + "/" + c) == (a + "/" + b) + "/" + c
  {
  }

  /** Where the parts of a request are written: under its action, its namespace or the directory of cluster-scoped
      resources, its group and its resource; in a file named by the hash of the body, or of the options where there is
      no body, the part, and the names. Colons are replaced. */
  lemma PartPathSpelled(coding: Coding, x: Request, part: string)
    requires Sound(coding) && PlainRequest(x) && IsPart(part)
    ensures x.body != "" ==> PartPath(coding, x, part) == Safe(Spelled(x, coding.hash(x.body), part))
    ensures x.body == "" && x.options != "" ==>
              PartPath(coding, x, part) == Safe(Spelled(x, coding.hash(x.options), part))
    ensures x.body == "" && x.options == "" ==> PartPath(coding, x, part) == Safe(Spelled(x, "MISSING", part))
  {
    hide Safe, Spelled, Directory, BaseName, FullName, Paths.Join, Paths.Plain;
    var segs := Directory(x) + [BaseName(Hash(coding, x), part, FullName(x))];
    SegmentsPlain(coding, x, part);
    Paths.JoinPlain(segs);
    JoinSpelled(x, Hash(coding, x), part);
  }

  lemma SegmentsPlain(coding: Coding, x: Request, part: string)
    requires Sound(coding) && PlainRequest(x) && IsPart(part)
    ensures forall s :: s in Directory(x) + [BaseName(Hash(coding, x), part, FullName(x))] ==> Paths.Plain(s)
  {
    hide Paths.Plain, Directory, BaseName, Hash;
    DirectoryPlain(x);
    HashIsHash(coding, x);
    BasePlain(Hash(coding, x), part, FullName(x));
  }

  /** A colon becomes "-COLON-", and nothing else changes. */
  lemma ColonsReplaced(before: string, after: string)
    ensures Safe(before + ":" + after) == Safe(before) + "-COLON-" + Safe(after)
    ensures ':' !in before ==> Safe(before) == before
  {
    SafeAppend(before + ":", after);
    SafeAppend(before, ":");
    SafeChars(before);
    assert Safe(":") == "-COLON-" by { assert ":"[1..] == ""; }
  }

  /** The groups have one directory. */
  predicate SameGroupDirectory(a: string, b: string)
  {
    Safe(a) == Safe(b) || (a in ["", "core"] && b in ["", "core"])
  }

  lemma GroupDirectories(a: string, b: string)
    ensures SameGroupDirectory(a, b) <==>
            Safe(if |a| == 0 then "core" else a) == Safe(if |b| == 0 then "core" else b)
  {
    hide Safe;
    SafeChars(a);
    SafeChars(b);
    SafeChars("core");
    assert Safe("") == "" by { SafeChars(""); }
  }

  /** Two requests share files exactly when action, namespace, group, resource, the hashed text's hash and the joined
      names agree, with colons replaced and the core group spelled "core". */
  lemma SharesFilesFieldwise(coding: Coding, x: Request, y: Request)
    requires Sound(coding) && PlainRequest(x) && PlainRequest(y)
    ensures SharesFiles(coding, x, y) <==>
            && x.metadata.action == y.metadata.action
            && Safe(x.metadata.namespace) == Safe(y.metadata.namespace)
            && SameGroupDirectory(x.metadata.resourceType.group, y.metadata.resourceType.group)
            && Safe(x.metadata.resourceType.resource) == Safe(y.metadata.resourceType.resource)
            && Hash(coding, x) == Hash(coding, y)
            && Safe(x.metadata.name + x.metadata.generateName) == Safe(y.metadata.name + y.metadata.generateName)
  {
    hide Safe, Hash, SharesFiles, Paths.Plain, SameGroupDirectory;
    SharesFilesExactly(coding, x, y);
    SafeChars(x.metadata.action);
    SafeChars(y.metadata.action);
    SafeChars(x.metadata.namespace);
    SafeChars(y.metadata.namespace);
    GroupDirectories(x.metadata.resourceType.group, y.metadata.resourceType.group);
    SameSegments(x, y);
  }

  lemma SameSegments(x: Request, y: Request)
    requires |Safe(x.metadata.namespace)| > 0 <==> |x.metadata.namespace| > 0
    requires |Safe(y.metadata.namespace)| > 0 <==> |y.metadata.namespace| > 0
    ensures SafeAll(Directory(x)) == SafeAll(Directory(y)) <==>
            && Safe(x.metadata.action) == Safe(y.metadata.action)
            && Safe(x.metadata.namespace) == Safe(y.metadata.namespace)
            && Safe(if |x.metadata.resourceType.group| == 0 then "core" else x.metadata.resourceType.group) ==
               Safe(if |y.metadata.resourceType.group| == 0 then "core" else y.metadata.resourceType.group)
            && Safe(x.metadata.resourceType.resource) == Safe(y.metadata.resourceType.resource)
  {
    hide Safe;
    var a, b := SafeAll(Directory(x)), SafeAll(Directory(y));
    if a == b {
      assert |a| == |b| && a[0] == b[0] && a[2] == b[2] && a[3] == b[3];
      assert |a| == 5 ==> a[1] == b[1] && a[4] == b[4];
    }
  }

  /** What becomes of one file: the content, what was there, or what a torn write left. */
  predicate Left(before: map<string, string>, after: map<string, string>, path: string, content: string, w: FileWrite)
  {
    match w
    case Complete => path in after && after[path] == content
    case Torn(left) => path in after && after[path] == left
    case NotBegun => (path in after <==> path in before) && (path in after ==> after[path] == before[path])
  }

  lemma PutLeaves(files: map<string, string>, path: string, content: string, w: FileWrite, other: string)
    ensures Left(files, Put(files, path, content, w), path, content, w)
    ensures other != path ==> Left(files, Put(files, path, content, w), other, "", NotBegun)
  {
  }

  lemma LeftBehind(
    a: map<string, string>, b: map<string, string>, c: map<string, string>, path: string, content: string, w: FileWrite)
    requires Left(a, b, path, "", NotBegun) && Left(b, c, path, content, w)
    ensures Left(a, c, path, content, w)
  {
  }

  lemma LeftBefore(
    a: map<string, string>, b: map<string, string>, c: map<string, string>, path: string, content: string, w: FileWrite)
    requires Left(a, b, path, content, w) && Left(b, c, path, "", NotBegun)
    ensures Left(a, c, path, content, w)
  {
  }

  /** Three writes to different paths, one after the other. */
  lemma ThreePuts(
    files: map<string, string>, p: string, q: string, r: string, s: string, t: string, u: string, v: FileWrite,
    w: FileWrite, x: FileWrite, other: string)
    requires p != q && p != r && q != r
    ensures
      var two := Put(Put(files, p, s, v), q, t, w);
      && Left(files, two, p, s, v) && Left(files, two, q, t, w)
      && (other != p && other != q ==> Left(files, two, other, "", NotBegun))
    ensures
      var three := Put(Put(Put(files, p, s, v), q, t, w), r, u, x);
      && Left(files, three, p, s, v) && Left(files, three, q, t, w) && Left(files, three, r, u, x)
      && (other != p && other != q && other != r ==> Left(files, three, other, "", NotBegun))
  {
    hide Put, Left;
    var one := Put(files, p, s, v);
    var two := Put(one, q, t, w);
    var three := Put(two, r, u, x);
    PutLeaves(files, p, s, v, q);
    PutLeaves(files, p, s, v, r);
    PutLeaves(files, p, s, v, other);
    PutLeaves(one, q, t, w, p);
    PutLeaves(one, q, t, w, r);
    PutLeaves(one, q, t, w, other);
    PutLeaves(two, r, u, x, p);
    PutLeaves(two, r, u, x, q);
    PutLeaves(two, r, u, x, other);
    LeftBefore(files, one, two, p, s, v);
    LeftBehind(files, one, two, q, t, w);
    LeftBefore(files, two, three, p, s, v);
    LeftBefore(files, two, three, q, t, w);
    LeftBehind(files, one, two, r, "", NotBegun);
    LeftBehind(files, two, three, r, u, x);
    if other != p && other != q {
      LeftBehind(files, one, two, other, "", NotBegun);
      if other != r { LeftBehind(files, two, three, other, "", NotBegun); }
    }
  }

  /** Writing one request touches its own files alone, each as its write goes, and the options only where there are any;
      without their directory none is touched. */
  lemma RequestLeaves(coding: Coding, files: map<string, string>, x: Request, w: RequestWrite, path: string)
    requires Sound(coding) && PlainRequest(x)
    ensures
      var after := AfterRequest(coding, files, x, w);
      && (w.NoParent? ==> after == files)
      && (w.Parts? ==> Left(files, after, PartPath(coding, x, METADATA), coding.yaml(x.metadata), w.metadata))
      && (w.Parts? ==> Left(files, after, PartPath(coding, x, BODY), x.body, w.body))
      && (w.Parts? && x.options != "" ==> Left(files, after, PartPath(coding, x, OPTIONS), x.options, w.options))
      && (|| (w.Parts? && (path == PartPath(coding, x, METADATA) || path == PartPath(coding, x, BODY)))
          || (w.Parts? && x.options != "" && path == PartPath(coding, x, OPTIONS))
          || Left(files, after, path, "", NotBegun))
  {
    hide PartPath, KeyOf, Put, Left;
    SharesFilesExactly(coding, x, x);
    PutLeaves(files, path, "", NotBegun, path);
    assert Put(files, path, "", NotBegun) == files by { NothingPut(files, path); }
    if w.Parts? {
      ThreePuts(
        files, PartPath(coding, x, METADATA), PartPath(coding, x, BODY), PartPath(coding, x, OPTIONS),
        coding.yaml(x.metadata), x.body, x.options, w.metadata, w.body, w.options, path);
    }
  }

  lemma NothingPut(files: map<string, string>, path: string)
    ensures Put(files, path, "", NotBegun) == files
  {
  }

  /** Which files below the directory of an action are read as bodies: those that end in ".yaml" or ".json" and whose
      name the expression matches. */
  lemma ReadAtBase(coding: Coding, files: map<string, string>, dir: seq<string>, base: string)
    requires dir != [] && (forall s :: s in dir ==> '/' !in s) && '/' !in base && IsAction(dir[0])
    requires JoinWith(dir + [base], '/') in files
    ensures ReadAt(coding, files, JoinWith(dir + [base], '/')) == Ignored <==>
            || !MatchesBody(base)
            || (forall stem: string :: base != stem + ".yaml" && base != stem + ".json")
  {
    hide MatchesBody, Split, JoinWith;
    var segs := dir + [base];
    SplitJoin(segs, '/');
    assert segs[0] == dir[0] && segs[|segs| - 1] == base;
    if HasSuffix(base, ".yaml") { assert base == base[..|base| - 5] + ".yaml"; }
    if HasSuffix(base, ".json") { assert base == base[..|base| - 5] + ".json"; }
    if stem: string :| base == stem + ".yaml" || base == stem + ".json" {
      assert base[|base| - 5..] == ".yaml" || base[|base| - 5..] == ".json";
    }
  }
}
