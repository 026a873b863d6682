/** Go strings, modelled as sequences of bytes (one `char` a byte), with the pieces of packages `strings`, `sets`
    and `path` that the program relies on. */
module GoStrings {

  /** `strings.Compare`: byte-wise lexicographic order. */
  function Compare(a: string, b: string): int
  {
    if a == [] then (if b == [] then 0 else -1)
    else if b == [] then 1
    else if a[0] < b[0] then -1
    else if a[0] > b[0] then 1
    else Compare(a[1..], b[1..])
  }

  lemma {:induction false} CompareZero(a: string, b: string)
    ensures Compare(a, b) == 0 <==> a == b
  {
    if a != [] && b != [] && a[0] == b[0] {
      CompareZero(a[1..], b[1..]);
      assert a == [a[0]] + a[1..] && b == [b[0]] + b[1..];
    }
  }

  lemma {:induction false} CompareAntisymmetric(a: string, b: string)
    ensures Compare(a, b) == -Compare(b, a)
  {
    if a != [] && b != [] && a[0] == b[0] {
      CompareAntisymmetric(a[1..], b[1..]);
    }
  }

  lemma {:induction false} CompareTransitive(a: string, b: string, c: string)
    requires Compare(a, b) <= 0 && Compare(b, c) <= 0
    ensures Compare(a, c) <= 0
    ensures Compare(a, b) < 0 || Compare(b, c) < 0 ==> Compare(a, c) < 0
  {
    if a != [] && b != [] && c != [] && a[0] == b[0] == c[0] {
      CompareTransitive(a[1..], b[1..], c[1..]);
    }
  }

  /** `a` comes before `b`: it is a proper prefix of it, or has the smaller byte at the first difference. */
  predicate Before(a: string, b: string)
  {
    a < b || exists i: nat :: i < |a| && i < |b| && a[..i] == b[..i] && a[i] < b[i]
  }

  lemma BeforeBehind(a: string, b: string)
    requires a != [] && b != [] && a[0] == b[0]
    ensures Before(a, b) <==> Before(a[1..], b[1..])
  {
    var c, d := a[1..], b[1..];
    assert a == [a[0]] + c && b == [b[0]] + d;
    assert a < b <==> c < d;
    if i: nat :| i < |c| && i < |d| && c[..i] == d[..i] && c[i] < d[i] {
      assert a[..i + 1] == [a[0]] + c[..i] && b[..i + 1] == [b[0]] + d[..i];
      assert a[i + 1] < b[i + 1];
    }
    if i: nat :| i < |a| && i < |b| && a[..i] == b[..i] && a[i] < b[i] {
      assert c[..i - 1] == a[..i][1..] == b[..i][1..] == d[..i - 1];
      assert c[i - 1] < d[i - 1];
    }
  }

  lemma BeforeAtFirst(a: string, b: string)
    requires a != [] && b != [] && a[0] != b[0]
    ensures Before(a, b) <==> a[0] < b[0]
  {
    if a[0] < b[0] { assert a[..0] == b[..0]; }
    if i: nat :| i < |a| && i < |b| && a[..i] == b[..i] && a[i] < b[i] {
      assert i > 0 ==> a[..i][0] == b[..i][0];
    }
  }

  /** The sign of a comparison says which string comes first. */
  lemma {:induction false} CompareIsByteOrder(a: string, b: string)
    ensures Compare(a, b) < 0 <==> Before(a, b)
    ensures Compare(a, b) > 0 <==> Before(b, a)
  {
    if a != [] && b != [] {
      if a[0] == b[0] {
        CompareIsByteOrder(a[1..], b[1..]);
        BeforeBehind(a, b);
        BeforeBehind(b, a);
      } else {
        BeforeAtFirst(a, b);
        BeforeAtFirst(b, a);
      }
    }
  }

  predicate StrictlyAscending(names: seq<string>)
  {
    forall i, j :: 0 <= i < j < |names| ==> Compare(names[i], names[j]) < 0
  }

  ghost predicate IsLeast(n: string, names: set<string>)
  {
    n in names && forall m :: m in names ==> Compare(n, m) <= 0
  }

  /** A non-empty set of names has a least one, the first that a sorted listing yields. */
  lemma {:induction false} LeastExists(names: set<string>)
    requires names != {}
    ensures exists n :: IsLeast(n, names)
  {
    var x :| x in names;
    CompareZero(x, x);
    if names == {x} {
      assert IsLeast(x, names);
    } else {
      LeastExists(names - {x});
      var least :| IsLeast(least, names - {x});
      if Compare(x, least) <= 0 {
        forall m | m in names ensures Compare(x, m) <= 0 {
          if m != x { CompareTransitive(x, least, m); }
        }
        assert IsLeast(x, names);
      } else {
        CompareAntisymmetric(x, least);
        assert IsLeast(least, names);
      }
    }
  }

  /** `sets.List` and the order in which a directory is read: ascending, every name once. */
  ghost function SortedList(names: set<string>): (r: seq<string>)
    ensures forall n :: n in r <==> n in names
    ensures StrictlyAscending(r)
  {
    if names == {} then []
    else
      LeastExists(names);
      var least :| IsLeast(least, names);
      var rest := SortedList(names - {least});
      assert forall m :: m in rest ==> Compare(least, m) < 0 by {
        forall m | m in rest ensures Compare(least, m) < 0 { CompareZero(least, m); }
      }
      [least] + rest
  }

  /** `strings.Join`. */
  function JoinWith(parts: seq<string>, sep: char): string
  {
    if parts == [] then ""
    else if |parts| == 1 then parts[0]
    else parts[0] + [sep] + JoinWith(parts[1..], sep)
  }

  lemma JoinOne(s: string)
    ensures JoinWith([s], '/') == s
  {
  }

  lemma JoinBehind(head: string, rest: seq<string>)
    requires rest != []
    ensures JoinWith([head] + rest, '/') == head + "/" + JoinWith(rest, '/')
  {
    assert ([head] + rest)[1..] == rest;
    assert "/" == ['/'];
  }

  /** `strings.Split` on one byte; never empty. */
  function Split(s: string, sep: char): (r: seq<string>)
    ensures |r| >= 1
  {
    if s == [] then [""]
    else
      var rest := Split(s[1..], sep);
      if s[0] == sep then [""] + rest else [[s[0]] + rest[0]] + rest[1..]
  }

  lemma {:induction false} SplitWithoutSeparator(s: string, sep: char)
    requires sep !in s
    ensures Split(s, sep) == [s]
  {
    if s != [] {
      SplitWithoutSeparator(s[1..], sep);
      assert s == [s[0]] + s[1..];
    }
  }

  lemma {:induction false} SplitHead(head: string, tail: string, sep: char)
    requires sep !in head
    ensures Split(head + [sep] + tail, sep) == [head] + Split(tail, sep)
  {
    var s := head + [sep] + tail;
    if head == [] {
      assert s[1..] == tail;
    } else {
      assert s[1..] == head[1..] + [sep] + tail;
      SplitHead(head[1..], tail, sep);
      assert head == [head[0]] + head[1..];
    }
  }

  /** Splitting a join gives back the parts, when no part contains the separator. */
  lemma {:induction false} SplitJoin(parts: seq<string>, sep: char)
    requires parts != []
    requires forall p :: p in parts ==> sep !in p
    ensures Split(JoinWith(parts, sep), sep) == parts
  {
    if |parts| == 1 {
      SplitWithoutSeparator(parts[0], sep);
    } else {
      SplitJoin(parts[1..], sep);
      SplitHead(parts[0], JoinWith(parts[1..], sep), sep);
      assert parts == [parts[0]] + parts[1..];
    }
  }

  /** `strings.TrimSuffix`. */
  function TrimSuffix(s: string, suffix: string): string
  {
    if |s| >= |suffix| && s[|s| - |suffix|..] == suffix then s[..|s| - |suffix|] else s
  }

  /** `strings.TrimPrefix`. */
  function TrimPrefix(s: string, prefix: string): string
  {
    if prefix <= s then s[|prefix|..] else s
  }

  /** `strings.HasSuffix`. */
  predicate HasSuffix(s: string, suffix: string)
  {
    |s| >= |suffix| && s[|s| - |suffix|..] == suffix
  }

  predicate HasAt(s: string, i: nat, part: string)
  {
    i + |part| <= |s| && s[i..i + |part|] == part
  }

  /** `strings.Replace` of the first occurrence. */
  function ReplaceFirst(s: string, part: string, instead: string): string
    requires part != ""
  {
    if part <= s then instead + s[|part|..]
    else if s == "" then ""
    else [s[0]] + ReplaceFirst(s[1..], part, instead)
  }

  lemma Associative(a: string, b: string, c: string)
    ensures (a + b) + c == a + (b + c)
  {
  }

  lemma NoPrefixBehind(head: string, tail: string, part: string)
    requires |part| > 1 && head != "" && part[1] !in head && (tail != "" ==> tail[0] != part[1])
    ensures !(part <= head + tail)
  {
    var s := head + tail;
    assert |s| > 1 ==> s[1] == if |head| > 1 then head[1] else tail[0];
  }

  lemma Behead(head: string, tail: string)
    requires head != ""
    ensures (head + tail)[0] == head[0] && (head + tail)[1..] == head[1..] + tail
    ensures [head[0]] + head[1..] == head
  {
  }

  /** A part whose second character does not occur in the head, and does not start the tail, is found behind it. */
  lemma {:induction false} ReplaceBehind(head: string, tail: string, part: string, instead: string)
    requires |part| > 1 && part[1] !in head && (tail != "" ==> tail[0] != part[1])
    ensures ReplaceFirst(head + tail, part, instead) == head + ReplaceFirst(tail, part, instead)
  {
    if head == "" {
      assert head + tail == tail;
    } else {
      NoPrefixBehind(head, tail, part);
      Behead(head, tail);
      ReplaceBehind(head[1..], tail, part, instead);
      Associative([head[0]], head[1..], ReplaceFirst(tail, part, instead));
    }
  }

  /** Replacing a part that occurs changes the length as the part's length changes. */
  lemma {:induction false} ReplaceLength(s: string, i: nat, part: string, instead: string)
    requires part != "" && HasAt(s, i, part)
    ensures |ReplaceFirst(s, part, instead)| == |s| - |part| + |instead|
  {
    if !(part <= s) {
      assert i > 0;
      assert s[1..][i - 1..i - 1 + |part|] == s[i..i + |part|];
      ReplaceLength(s[1..], i - 1, part, instead);
    }
  }

  /** A part whose first character does not occur in the head is found behind it. */
  lemma {:induction false} ReplaceAfter(head: string, tail: string, part: string, instead: string)
    requires part != "" && part[0] !in head
    ensures ReplaceFirst(head + tail, part, instead) == head + ReplaceFirst(tail, part, instead)
  {
    if head == "" {
      assert head + tail == tail;
    } else {
      var s := head + tail;
      assert s[0] == head[0];
      assert s[1..] == head[1..] + tail;
      ReplaceAfter(head[1..], tail, part, instead);
      var rest := ReplaceFirst(tail, part, instead);
      assert [head[0]] + (head[1..] + rest) == head + rest;
    }
  }

  lemma PrefixOfFront(s: string, t: string, part: string)
    requires |part| <= |s|
    ensures part <= s + t <==> part <= s
    ensures part <= s ==> (s + t)[|part|..] == s[|part|..] + t
  {
    assert (s + t)[..|part|] == s[..|part|];
  }

  /** A part that occurs in the front is replaced there. */
  lemma {:induction false} ReplaceWithin(s: string, t: string, i: nat, part: string, instead: string)
    requires part != "" && HasAt(s, i, part)
    ensures ReplaceFirst(s + t, part, instead) == ReplaceFirst(s, part, instead) + t
  {
    PrefixOfFront(s, t, part);
    if part <= s {
      Associative(instead, s[|part|..], t);
    } else {
      assert i > 0 && (s + t)[1..] == s[1..] + t;
      assert s[1..][i - 1..i - 1 + |part|] == s[i..i + |part|];
      ReplaceWithin(s[1..], t, i - 1, part, instead);
      Associative([s[0]], ReplaceFirst(s[1..], part, instead), t);
    }
  }
}
