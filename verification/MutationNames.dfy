/** The file names of requests: which requests share files, and which names the reader mistakes. */
module MutationNames {
  import opened Seqs
  import opened GoStrings
  import opened Kube
  import opened Requests
  import opened MutationFiles
  import Paths

  lemma {:induction false} SafeAppend(a: string, b: string)
    ensures Safe(a + b) == Safe(a) + Safe(b)
  {
    if a == "" {
      assert a + b == b;
    } else {
      assert (a + b)[1..] == a[1..] + b;
      SafeAppend(a[1..], b);
    }
  }

  lemma {:induction false} SafeChars(s: string)
    ensures ':' !in s ==> Safe(s) == s
    ensures ':' in s ==> |Safe(s)| >= 7
    ensures |Safe(s)| >= |s|
    ensures '/' !in s ==> '/' !in Safe(s)
    ensures '\n' !in s ==> '\n' !in Safe(s)
  {
    if s != "" {
      SafeChars(s[1..]);
      assert s == [s[0]] + s[1..];
    }
  }

  lemma SafePlain(s: string)
    requires Paths.Plain(s)
    ensures Paths.Plain(Safe(s))
  {
    SafeChars(s);
  }

  lemma {:induction false} SafeJoin(segs: seq<string>)
    ensures Safe(JoinWith(segs, '/')) == JoinWith(SafeAll(segs), '/')
  {
    if |segs| > 1 {
      SafeJoin(segs[1..]);
      assert SafeAll(segs)[1..] == SafeAll(segs[1..]);
      SafeAppend(segs[0] + ['/'], JoinWith(segs[1..], '/'));
      SafeAppend(segs[0], ['/']);
      assert Safe(['/']) == ['/'] by { assert ['/'][1..] == ""; }
    }
  }

  /** What a hash can be. */
  predicate IsHash(h: string)
  {
    '-' !in h && 'o' !in h && '/' !in h && ':' !in h
  }

  lemma HashIsHash(coding: Coding, x: Request)
    requires Sound(coding)
    ensures IsHash(Hash(coding, x))
  {
    forall ch | ch in Hash(coding, x) ensures ch in HEX || ch in "MISSING" {}
  }

  lemma SafeBase(h: string, part: string, name: string)
    requires IsHash(h) && IsPart(part)
    ensures Safe(BaseName(h, part, name)) == BaseName(h, part, Safe(name))
  {
    hide Safe;
    var head := h + ['-'] + part + ['-'];
    SafeAppend(head + name, ".yaml");
    SafeAppend(head, name);
    SafeChars(head);
    SafeChars(".yaml");
  }

  lemma BasePlain(h: string, part: string, name: string)
    requires IsHash(h) && IsPart(part) && '/' !in name
    ensures Paths.Plain(BaseName(h, part, name))
  {
    assert |BaseName(h, part, name)| > 5;
  }

  lemma DirectorySegments(x: Request)
    requires PlainRequest(x)
    ensures forall i :: 0 <= i < |Directory(x)| ==> Paths.Plain(Directory(x)[i])
    ensures |Directory(x)| > 1 && Directory(x)[0] == x.metadata.action
  {
    assert Paths.Plain("namespaces") && Paths.Plain("cluster-scoped-resources") && Paths.Plain("core");
    hide Paths.Plain;
  }

  /** The directory of a request, with its colons replaced, still names directories. */
  lemma DirectoryPlain(x: Request)
    requires PlainRequest(x)
    ensures forall s :: s in Directory(x) ==> Paths.Plain(s)
    ensures forall s :: s in SafeAll(Directory(x)) ==> Paths.Plain(s)
    ensures |SafeAll(Directory(x))| > 1 && SafeAll(Directory(x))[0] == Safe(x.metadata.action)
  {
    DirectorySegments(x);
    hide Directory, Safe, Paths.Plain;
    forall s | s in SafeAll(Directory(x)) ensures Paths.Plain(s) {
      var i :| 0 <= i < |Directory(x)| && s == Safe(Directory(x)[i]);
      SafePlain(Directory(x)[i]);
    }
  }

  lemma KeyIsPlain(coding: Coding, x: Request)
    requires Sound(coding) && PlainRequest(x)
    ensures PlainKey(KeyOf(coding, x))
  {
    DirectoryPlain(x);
    HashIsHash(coding, x);
    SafeChars(FullName(x));
  }

  /** The path of a part is that of the request's key. */
  lemma PartPathIsKeyPath(coding: Coding, x: Request, part: string)
    requires Sound(coding) && PlainRequest(x) && IsPart(part)
    ensures PartPath(coding, x, part) == KeyPath(KeyOf(coding, x), part)
  {
    hide Directory, Safe, Hash, Paths.Join;
    var base := BaseName(Hash(coding, x), part, FullName(x));
    var segs := Directory(x) + [base];
    DirectoryPlain(x);
    HashIsHash(coding, x);
    BasePlain(Hash(coding, x), part, FullName(x));
    Paths.JoinPlain(segs);
    SafeJoin(segs);
    SafeBase(Hash(coding, x), part, FullName(x));
    assert SafeAll(segs) == SafeAll(Directory(x)) + [Safe(base)];
  }

  lemma KeySegments(k: FileKey, part: string)
    requires PlainKey(k) && IsPart(part)
    ensures Split(KeyPath(k, part), '/') == k.directory + [BaseName(k.hash, part, k.name)]
  {
    BasePlainKey(k, part);
    var segs := k.directory + [BaseName(k.hash, part, k.name)];
    SplitJoin(segs, '/');
  }

  lemma BasePlainKey(k: FileKey, part: string)
    requires PlainKey(k) && IsPart(part)
    ensures '/' !in BaseName(k.hash, part, k.name)
  {
  }

  lemma DashNotIn(front: string, rest: string, i: nat)
    requires '-' !in front && i < |front + rest|
    ensures (front + rest)[i] == '-' ==> |front| <= i
  {
    assert i < |front| ==> (front + rest)[i] == front[i];
  }

  /** What stands before the first dash is the same in equal strings. */
  lemma BeforeDash(a: string, b: string, s: string, t: string)
    requires '-' !in a && '-' !in b && a + ['-'] + s == b + ['-'] + t
    ensures a == b && s == t
  {
    var u := a + (['-'] + s);
    var v := b + (['-'] + t);
    assert u == a + ['-'] + s && v == b + ['-'] + t;
    assert u[|a|] == '-' && v[|b|] == '-';
    DashNotIn(a, ['-'] + s, |b|);
    DashNotIn(b, ['-'] + t, |a|);
    assert a == u[..|a|] && b == v[..|b|];
    assert s == u[|a| + 1..] && t == v[|b| + 1..];
  }

  lemma BaseInjective(h: string, part: string, name: string, h': string, part': string, name': string)
    requires '-' !in h && '-' !in h' && IsPart(part) && IsPart(part')
    requires BaseName(h, part, name) == BaseName(h', part', name')
    ensures h == h' && part == part' && name == name'
  {
    var s, t := part + ['-'] + (name + ".yaml"), part' + ['-'] + (name' + ".yaml");
    assert BaseName(h, part, name) == h + ['-'] + s && BaseName(h', part', name') == h' + ['-'] + t;
    BeforeDash(h, h', s, t);
    BeforeDash(part, part', name + ".yaml", name' + ".yaml");
    assert name == (name + ".yaml")[..|name + ".yaml"| - 5];
    assert name' == (name' + ".yaml")[..|name' + ".yaml"| - 5];
  }

  /** Different keys, and different parts of one key, have different paths. */
  lemma KeyPathInjective(k: FileKey, part: string, k': FileKey, part': string)
    requires PlainKey(k) && PlainKey(k') && IsPart(part) && IsPart(part')
    ensures KeyPath(k, part) == KeyPath(k', part') <==> k == k' && part == part'
  {
    if KeyPath(k, part) == KeyPath(k', part') {
      KeySegments(k, part);
      KeySegments(k', part');
      var a := k.directory + [BaseName(k.hash, part, k.name)];
      var b := k'.directory + [BaseName(k'.hash, part', k'.name)];
      assert a == b && |k.directory| == |k'.directory|;
      assert k.directory == a[..|k.directory|] == k'.directory;
      assert a[|a| - 1] == b[|b| - 1];
      BaseInjective(k.hash, part, k.name, k'.hash, part', k'.name);
    }
  }

  /** Two requests share files exactly when action, scope, group and resource, the hash, and the joined names agree,
      colons replaced. */
  lemma SharesFilesExactly(coding: Coding, x: Request, y: Request)
    requires Sound(coding) && PlainRequest(x) && PlainRequest(y)
    ensures SharesFiles(coding, x, y) <==> KeyOf(coding, x) == KeyOf(coding, y)
    ensures forall part, part' :: IsPart(part) && IsPart(part') ==>
              (PartPath(coding, x, part) == PartPath(coding, y, part') <==>
               KeyOf(coding, x) == KeyOf(coding, y) && part == part')
  {
    hide KeyPath, PartPath;
    KeyIsPlain(coding, x);
    KeyIsPlain(coding, y);
    forall part, part' | IsPart(part) && IsPart(part')
      ensures PartPath(coding, x, part) == PartPath(coding, y, part') <==>
              KeyOf(coding, x) == KeyOf(coding, y) && part == part'
    {
      PartPathIsKeyPath(coding, x, part);
      PartPathIsKeyPath(coding, y, part');
      KeyPathInjective(KeyOf(coding, x), part, KeyOf(coding, y), part');
    }
  }

  /** The reader takes every file of the name for a body: after a dash, "body-" occurs, and something follows it. */
  predicate HidesBody(name: string)
  {
    exists i: nat :: i + 6 <= |name| && HasAt(['-'] + name, i, "-body-")
  }

  /** A body file is recognized exactly if its request is named. */
  lemma BodyMatches(h: string, name: string)
    requires '-' !in h && '\n' !in name
    ensures MatchesBody(BaseName(h, BODY, name)) <==> name != ""
  {
    var base := BaseName(h, BODY, name);
    assert |base| == |h| + 6 + |name| + 5;
    if name != "" {
      assert base[|h|..|h| + 6] == "-body-";
      assert base[|base| - 4..] == "yaml";
      assert HasAt(base, |h|, "-body-") && HasAt(base, |base| - 4, "yaml");
      assert base[|h| + 6..|base| - 4] == name + ".";
    } else {
      forall i: nat, end: nat | i < end && end < |base| && HasAt(base, i, "-body-") && HasAt(base, end, "yaml")
        ensures i + 8 > end
      {
        DashNotBefore(h, "body-.yaml", i);
      }
    }
  }

  lemma DashNotBefore(h: string, tail: string, i: nat)
    requires '-' !in h && HasAt(h + ['-'] + tail, i, "-body-")
    ensures i >= |h|
  {
    var s := h + (['-'] + tail);
    assert s == h + ['-'] + tail;
    assert s[i] == s[i..i + 6][0] == '-';
    DashNotIn(h, ['-'] + tail, i);
  }

  /** The other files of a request are mistaken for a body exactly if its name hides one. */
  lemma OtherMatches(h: string, part: string, name: string)
    requires '-' !in h && '\n' !in name && (part == METADATA || part == OPTIONS)
    ensures MatchesBody(BaseName(h, part, name)) <==> HidesBody(name)
  {
    if HidesBody(name) { HiddenMatches(h, part, name); }
    if MatchesBody(BaseName(h, part, name)) { MatchIsHidden(h, part, name); }
  }

  /** A part stays where it is in the middle of a longer string. */
  lemma HasAtBetween(front: string, s: string, back: string, i: nat, part: string)
    requires i + |part| <= |s|
    ensures HasAt(front + s + back, |front| + i, part) <==> HasAt(s, i, part)
  {
    var all := front + s + back;
    assert all[|front|..|front| + |s|] == s;
    assert all[|front| + i..|front| + i + |part|] == s[i..i + |part|];
  }

  lemma NoBreakBetween(front: string, s: string, from: nat, to: nat)
    requires '\n' !in s && |front| <= from <= to <= |front + s|
    ensures '\n' !in (front + s)[from..to]
  {
    assert forall k :: from <= k < to ==> (front + s)[k] == s[k - |front|];
  }

  lemma HiddenMatches(h: string, part: string, name: string)
    requires '\n' !in name && IsPart(part) && HidesBody(name)
    ensures MatchesBody(BaseName(h, part, name))
  {
    var i: nat :| i + 6 <= |name| && HasAt(['-'] + name, i, "-body-");
    var front := h + ['-'] + part;
    var base := front + (['-'] + name) + ".yaml";
    assert BaseName(h, part, name) == base;
    HasAtBetween(front, ['-'] + name, ".yaml", i, "-body-");
    assert HasAt(base, |base| - 4, "yaml");
    assert base == front + (['-'] + name + ".yaml");
    NoBreakBetween(front, ['-'] + name + ".yaml", |front| + i + 6, |base| - 4);
  }

  lemma MatchIsHidden(h: string, part: string, name: string)
    requires '-' !in h && (part == METADATA || part == OPTIONS) && MatchesBody(BaseName(h, part, name))
    ensures HidesBody(name)
  {
    var front := h + ['-'] + part;
    var base := front + (['-'] + name) + ".yaml";
    assert BaseName(h, part, name) == base;
    var i: nat, end: nat :| i < end && end < |base| && HasAt(base, i, "-body-") && HasAt(base, end, "yaml")
                            && i + 8 <= end && '\n' !in base[i + 6..end];
    BodyBehindPart(h, part, name, i);
    HasAtBetween(front, ['-'] + name, ".yaml", i - |front|, "-body-");
  }

  lemma BodyBehindPart(h: string, part: string, name: string, i: nat)
    requires '-' !in h && (part == METADATA || part == OPTIONS)
    requires HasAt(BaseName(h, part, name), i, "-body-") && i + 12 <= |BaseName(h, part, name)|
    ensures |h| + 1 + |part| <= i
  {
    var base := BaseName(h, part, name);
    assert base[i] == base[i..i + 6][0] == '-' && base[i + 1] == base[i..i + 6][1] == 'b';
    var rest := ['-'] + name + ".yaml";
    assert base == h + (['-'] + (part + rest));
    DashNotIn(h, ['-'] + (part + rest), i);
    assert base[|h| + 1] == part[0] != 'b';
    if i > |h| {
      assert base[i] == (part + rest)[i - |h| - 1];
      DashNotIn(part, rest, i - |h| - 1);
    }
  }
}
