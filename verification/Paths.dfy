/** Package `path`: lexical cleaning and joining of slash-separated paths. */
module Paths {
  import opened GoStrings

  /** Drops "" and "." segments and resolves ".." against the segments before it, as `path.Clean` does. A ".."
      with nothing to cancel stays in a relative path and disappears at the root. */
  function Resolve(done: seq<string>, todo: seq<string>, rooted: bool): seq<string>
    decreases |todo|
  {
    if todo == [] then done
    else
      var seg := todo[0];
      var next :=
        if seg == "" || seg == "." then done
        else if seg != ".." then done + [seg]
        else if done != [] && done[|done| - 1] != ".." then done[..|done| - 1]
        else if rooted then done
        else done + [seg];
      Resolve(next, todo[1..], rooted)
  }

  function Clean(p: string): string
  {
    var rooted := p != "" && p[0] == '/';
    var body := JoinWith(Resolve([], Split(p, '/'), rooted), '/');
    if rooted then "/" + body else if body == "" then "." else body
  }

  function NonEmpty(elems: seq<string>): seq<string>
  {
    if elems == [] then []
    else (if elems[0] == "" then [] else [elems[0]]) + NonEmpty(elems[1..])
  }

  /** `path.Join`: empty elements are ignored. */
  function Join(elems: seq<string>): string
  {
    if NonEmpty(elems) == [] then "" else Clean(JoinWith(NonEmpty(elems), '/'))
  }

  /** A segment that names one directory entry. */
  predicate Plain(seg: string)
  {
    seg != "" && seg != "." && seg != ".." && '/' !in seg
  }

  lemma {:induction false} ResolvePlain(done: seq<string>, todo: seq<string>)
    requires forall s :: s in todo ==> Plain(s)
    ensures Resolve(done, todo, false) == done + todo
    decreases |todo|
  {
    if todo == [] {
      assert done + todo == done;
    } else {
      assert Plain(todo[0]) by { assert todo[0] in todo; }
      ResolvePlain(done + [todo[0]], todo[1..]);
      assert done + todo == done + [todo[0]] + todo[1..];
    }
  }

  lemma {:induction false} NonEmptyPlain(elems: seq<string>)
    requires forall s :: s in elems ==> Plain(s)
    ensures NonEmpty(elems) == elems
  {
    if elems != [] {
      assert Plain(elems[0]) by { assert elems[0] in elems; }
      NonEmptyPlain(elems[1..]);
      assert elems == [elems[0]] + elems[1..];
    }
  }

  /** Joining plain segments neither drops nor merges any: the segments can be read back off the path. */
  lemma JoinPlain(segs: seq<string>)
    requires segs != []
    requires forall s :: s in segs ==> Plain(s)
    ensures Join(segs) == JoinWith(segs, '/')
    ensures Split(Join(segs), '/') == segs
    ensures Join([JoinWith(segs, '/')]) == JoinWith(segs, '/')
  {
    NonEmptyPlain(segs);
    SplitJoin(segs, '/');
    ResolvePlain([], segs);
    var p := JoinWith(segs, '/');
    assert Plain(segs[0]) by { assert segs[0] in segs; }
    assert p != "" && p[0] == segs[0][0] && segs[0][0] in segs[0];
    assert [] + segs == segs;
    assert NonEmpty([p]) == [p] && JoinWith([p], '/') == p;
  }

  /** Empty and "." segments are dropped, and ".." takes back the segment before it, if there is one. */
  lemma ResolveDots(done: seq<string>, seg: string, todo: seq<string>, rooted: bool)
    requires Plain(seg)
    ensures Resolve(done, [""] + todo, rooted) == Resolve(done, todo, rooted)
    ensures Resolve(done, ["."] + todo, rooted) == Resolve(done, todo, rooted)
    ensures Resolve(done, [seg, ".."] + todo, rooted) == Resolve(done, todo, rooted)
    ensures Resolve([], [".."] + todo, rooted) == Resolve(if rooted then [] else [".."], todo, rooted)
  {
    assert ([""] + todo)[1..] == todo && (["."] + todo)[1..] == todo && ([".."] + todo)[1..] == todo;
    var next := done + [seg];
    assert next != [] && next[|next| - 1] == seg && next[..|next| - 1] == done;
    assert ([seg, ".."] + todo)[0] == seg && ([seg, ".."] + todo)[1..] == [".."] + todo;
    assert Resolve(done, [seg, ".."] + todo, rooted) == Resolve(next, [".."] + todo, rooted);
    assert Resolve(next, [".."] + todo, rooted) == Resolve(done, todo, rooted);
    assert [] + [".."] == [".."];
  }
}
