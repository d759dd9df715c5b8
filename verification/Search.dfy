/**
  First-occurrence search, splitting and joining of sequences: the meaning of the
  `indexOf`, `split` and `join` calls that every incremental parser here is built on.
  */
module Search {

  ghost predicate OccursAt<T>(s: seq<T>, pat: seq<T>, i: int) {
    0 <= i && i + |pat| <= |s| && s[i..i + |pat|] == pat
  }

  ghost predicate Contains<T>(s: seq<T>, pat: seq<T>) {
    exists i :: OccursAt(s, pat, i)
  }

  /** The index of the first occurrence of `pat`, or -1. */
  function IndexOf<T(==)>(s: seq<T>, pat: seq<T>): (r: int)
    ensures r == -1 || OccursAt(s, pat, r)
    ensures forall j :: OccursAt(s, pat, j) ==> 0 <= r <= j
  {
    IndexFrom(s, pat, 0)
  }

  function IndexFrom<T(==)>(s: seq<T>, pat: seq<T>, from: nat): (r: int)
    ensures r == -1 || (from <= r && OccursAt(s, pat, r))
    ensures forall j :: from <= j && OccursAt(s, pat, j) ==> 0 <= r <= j
    decreases |s| - from
  {
    if from + |pat| > |s| then -1
    else if s[from..from + |pat|] == pat then from
    else if from == |s| then -1
    else IndexFrom(s, pat, from + 1)
  }

  /** Names the first occurrence once it has been identified. */
  lemma FirstOccurrence<T>(s: seq<T>, pat: seq<T>, i: int)
    requires OccursAt(s, pat, i)
    requires forall j :: OccursAt(s, pat, j) ==> i <= j
    ensures IndexOf(s, pat) == i
  {
  }

  lemma OccursInPrefix<T>(a: seq<T>, b: seq<T>, pat: seq<T>, i: int)
    requires i + |pat| <= |a|
    ensures OccursAt(a + b, pat, i) <==> OccursAt(a, pat, i)
  {
    if 0 <= i {
      assert (a + b)[i..i + |pat|] == a[i..i + |pat|];
    }
  }

  lemma OccursInSuffix<T>(a: seq<T>, b: seq<T>, pat: seq<T>, i: int)
    requires |a| <= i
    ensures OccursAt(a + b, pat, i) <==> OccursAt(b, pat, i - |a|)
  {
    if i + |pat| <= |a| + |b| {
      assert (a + b)[i..i + |pat|] == b[i - |a|..i - |a| + |pat|];
    }
  }

  /** Bytes that arrive later never move an occurrence already found; a first occurrence
      that they create ends inside them. */
  lemma IndexOfExtended<T>(a: seq<T>, b: seq<T>, pat: seq<T>)
    ensures IndexOf(a, pat) >= 0 ==> IndexOf(a + b, pat) == IndexOf(a, pat)
    ensures IndexOf(a, pat) < 0 && IndexOf(a + b, pat) >= 0 ==> IndexOf(a + b, pat) + |pat| > |a|
  {
    var i, k := IndexOf(a, pat), IndexOf(a + b, pat);
    if i >= 0 {
      OccursInPrefix(a, b, pat, i);
      OccursInPrefix(a, b, pat, k);
    } else if k >= 0 && k + |pat| <= |a| {
      OccursInPrefix(a, b, pat, k);
    }
  }

  /** No proper suffix of the pattern is also a prefix of it, so occurrences never overlap. */
  ghost predicate Unbordered<T>(pat: seq<T>) {
    0 < |pat| && forall k :: 0 < k < |pat| ==> pat[k..] != pat[..|pat| - k]
  }

  /** Where the separator can first occur in text followed by that separator. */
  lemma OccurrencesAround<T>(l: seq<T>, sep: seq<T>, rest: seq<T>, j: int)
    requires OccursAt(l + sep + rest, sep, j) && |sep| > 0
    ensures |l| <= j || Contains(l, sep) || !Unbordered(sep)
  {
    var s := l + sep + rest;
    if j + |sep| <= |l| {
      assert s == l + (sep + rest);
      OccursInPrefix(l, sep + rest, sep, j);
    } else if j < |l| {
      var k := |l| - j;
      assert sep[k..] == s[j + k..j + |sep|];
      assert s[|l|..j + |sep|] == sep[..|sep| - k];
    }
  }

  /** A separator written after text that does not contain it is found exactly there. */
  lemma IndexOfSeparator<T>(l: seq<T>, sep: seq<T>, rest: seq<T>)
    requires Unbordered(sep) && !Contains(l, sep)
    ensures IndexOf(l + sep + rest, sep) == |l|
  {
    var s := l + sep + rest;
    assert s[|l|..|l| + |sep|] == sep;
    forall j | OccursAt(s, sep, j) ensures |l| <= j {
      OccurrencesAround(l, sep, rest, j);
    }
    FirstOccurrence(s, sep, |l|);
  }

  lemma PrefixBeforeFirst<T>(s: seq<T>, pat: seq<T>, i: nat)
    requires i == IndexOf(s, pat) && |pat| > 0
    ensures !Contains(s[..i], pat)
  {
    forall j ensures OccursAt(s[..i], pat, j) ==> OccursAt(s, pat, j) {
      if 0 <= j && j + |pat| <= i {
        assert s[..i][j..j + |pat|] == s[j..j + |pat|];
      }
    }
  }

  function Split<T(==)>(s: seq<T>, sep: seq<T>): (lines: seq<seq<T>>)
    requires |sep| > 0
    ensures |lines| > 0
    decreases |s|
  {
    var i := IndexOf(s, sep);
    if i < 0 then [s] else [s[..i]] + Split(s[i + |sep|..], sep)
  }

  function Join<T>(lines: seq<seq<T>>, sep: seq<T>): seq<T>
    requires |lines| > 0
  {
    if |lines| == 1 then lines[0] else lines[0] + sep + Join(lines[1..], sep)
  }

  lemma JoinCons<T>(head: seq<T>, tail: seq<seq<T>>, sep: seq<T>)
    requires |tail| > 0
    ensures Join([head] + tail, sep) == head + sep + Join(tail, sep)
  {
    assert ([head] + tail)[1..] == tail;
  }

  lemma CutAt<T>(s: seq<T>, pat: seq<T>, i: int)
    requires OccursAt(s, pat, i)
    ensures s == s[..i] + pat + s[i + |pat|..]
  {
  }

  /** Splitting loses nothing. */
  lemma {:induction false} JoinOfSplit<T>(s: seq<T>, sep: seq<T>)
    requires |sep| > 0
    ensures Join(Split(s, sep), sep) == s
    decreases |s|
  {
    var i := IndexOf(s, sep);
    if i >= 0 {
      var rest := s[i + |sep|..];
      JoinOfSplit(rest, sep);
      JoinCons(s[..i], Split(rest, sep), sep);
      CutAt(s, sep, i);
    }
  }

  /** No piece of a split contains the separator. */
  lemma {:induction false} PiecesAreFree<T>(s: seq<T>, sep: seq<T>)
    requires |sep| > 0
    ensures forall k :: 0 <= k < |Split(s, sep)| ==> !Contains(Split(s, sep)[k], sep)
    decreases |s|
  {
    var i := IndexOf(s, sep);
    if i >= 0 {
      PiecesAreFree(s[i + |sep|..], sep);
      PrefixBeforeFirst(s, sep, i);
    }
  }

  /** Separator-free pieces come back from a split of their join. */
  lemma {:induction false} SplitOfJoin<T>(lines: seq<seq<T>>, sep: seq<T>)
    requires |lines| > 0 && Unbordered(sep)
    requires forall k :: 0 <= k < |lines| ==> !Contains(lines[k], sep)
    ensures Split(Join(lines, sep), sep) == lines
  {
    var s := Join(lines, sep);
    if |lines| == 1 {
      assert s == lines[0] && !Contains(s, sep);
    } else {
      var tail := Join(lines[1..], sep);
      IndexOfSeparator(lines[0], sep, tail);
      assert s[..|lines[0]|] == lines[0];
      assert s[|lines[0]| + |sep|..] == tail;
      SplitOfJoin(lines[1..], sep);
    }
  }

  lemma AbsentSeparator<T>(s: seq<T>, c: T)
    requires c !in s
    ensures !Contains(s, [c])
  {
    forall j ensures !OccursAt(s, [c], j) {
      if 0 <= j < |s| {
        assert s[j..j + 1] == [s[j]] && s[j] in s;
      }
    }
  }

  lemma SingletonUnbordered<T>(c: T)
    ensures Unbordered([c])
  {
  }

  /** Everything the pieces of a stream carry, in order. */
  function Flatten<T>(parts: seq<seq<T>>): seq<T> {
    if |parts| == 0 then [] else parts[0] + Flatten(parts[1..])
  }

  lemma {:induction false} FlattenSnoc<T>(parts: seq<seq<T>>, last: seq<T>)
    ensures Flatten(parts + [last]) == Flatten(parts) + last
  {
    if |parts| == 0 {
      assert parts + [last] == [last];
      assert Flatten([last]) == last + Flatten([last][1..]);
    } else {
      FlattenSnoc(parts[1..], last);
      assert (parts + [last])[1..] == parts[1..] + [last];
    }
  }

  lemma FlattenFew<T>(a: seq<T>, b: seq<T>)
    ensures Flatten([a]) == a && Flatten([a, b]) == a + b
    ensures [a, b][1..] == [b] && |[a][1..]| == 0
  {
    assert Flatten([a]) == a + Flatten([a][1..]);
    assert Flatten([b]) == b + Flatten([b][1..]);
    assert [a, b][1..] == [b];
  }
}
