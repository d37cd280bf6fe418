/** The canonical text behind `content_digest`: the manifest and the file entries sorted by
    logical path.  Sorting is stable, so the text is independent of the order in which rows
    are listed exactly when no two different entries share a path. */
module Digests {
  import opened Schema

  // ----- the order of paths ----------------------------------------------------------------

  predicate Leq(a: string, b: string) {
    a == [] || (b != [] && (a[0] < b[0] || (a[0] == b[0] && Leq(a[1..], b[1..]))))
  }

  lemma {:induction false} LeqTotal(a: string, b: string)
    ensures Leq(a, b) || Leq(b, a)
  {
    if a != [] && b != [] && a[0] == b[0] {
      LeqTotal(a[1..], b[1..]);
    }
  }

  lemma {:induction false} LeqAntisymmetric(a: string, b: string)
    requires Leq(a, b) && Leq(b, a)
    ensures a == b
  {
    if a != [] && b != [] {
      LeqAntisymmetric(a[1..], b[1..]);
      assert a == [a[0]] + a[1..] && b == [b[0]] + b[1..];
    }
  }

  lemma {:induction false} LeqTransitive(a: string, b: string, c: string)
    requires Leq(a, b) && Leq(b, c)
    ensures Leq(a, c)
  {
    if a != [] && a[0] == b[0] && b[0] == c[0] {
      LeqTransitive(a[1..], b[1..], c[1..]);
    }
  }

  // ----- stable sorting ---------------------------------------------------------------------

  /** `e` goes after everything whose path is not greater. */
  function Insert(sorted: seq<Entry>, e: Entry): (r: seq<Entry>)
    ensures |r| == |sorted| + 1
  {
    if sorted == [] then [e]
    else if Leq(sorted[|sorted| - 1].path, e.path) then sorted + [e]
    else Insert(sorted[..|sorted| - 1], e) + [sorted[|sorted| - 1]]
  }

  function Sorted(files: seq<Entry>): (r: seq<Entry>)
    ensures |r| == |files|
  {
    if files == [] then [] else Insert(Sorted(files[..|files| - 1]), files[|files| - 1])
  }

  datatype Text = Text(manifest: Manifest, files: seq<Entry>)

  function CanonicalText(m: Manifest, files: seq<Entry>): Text {
    Text(m, Sorted(files))
  }

  ghost predicate InOrder(s: seq<Entry>) {
    forall i, j :: 0 <= i < j < |s| ==> Leq(s[i].path, s[j].path)
  }

  lemma {:induction false} InsertSorts(s: seq<Entry>, e: Entry)
    requires InOrder(s)
    ensures InOrder(Insert(s, e)) && multiset(Insert(s, e)) == multiset(s) + multiset{e}
  {
    if s != [] {
      var n := |s| - 1;
      var last := s[n];
      assert s == s[..n] + [last];
      if Leq(last.path, e.path) {
        forall i | 0 <= i <= n ensures Leq(s[i].path, e.path) {
          if i < n {
            LeqTransitive(s[i].path, last.path, e.path);
          } else {
            assert s[i] == last;
          }
        }
      } else {
        InsertSorts(s[..n], e);
        LeqTotal(last.path, e.path);
        var r := Insert(s[..n], e);
        forall i | 0 <= i < |r| ensures Leq(r[i].path, last.path) {
          assert r[i] in multiset(r);
          if r[i] != e {
            assert r[i] in multiset(s[..n]);
          }
        }
      }
    }
  }

  /** The same rows in order. */
  ghost predicate SortOf(sorted: seq<Entry>, files: seq<Entry>) {
    InOrder(sorted) && multiset(sorted) == multiset(files)
  }

  lemma SortStep(sorted: seq<Entry>, files: seq<Entry>, e: Entry)
    requires SortOf(sorted, files)
    ensures SortOf(Insert(sorted, e), files + [e])
  {
    hide InOrder, Insert;
    InsertSorts(sorted, e);
  }

  lemma SortedLast(files: seq<Entry>)
    requires files != []
    ensures Sorted(files) == Insert(Sorted(files[..|files| - 1]), files[|files| - 1])
  {
    hide Insert;
  }

  lemma LastEntry<T>(s: seq<T>)
    requires s != []
    ensures s == s[..|s| - 1] + [s[|s| - 1]]
  {
  }

  lemma {:induction false} SortedSorts(files: seq<Entry>)
    ensures SortOf(Sorted(files), files)
    decreases |files|
  {
    if files != [] {
      hide Insert, Sorted, SortOf;
      var n := |files| - 1;
      SortedLast(files);
      LastEntry(files);
      SortedSorts(files[..n]);
      SortStep(Sorted(files[..n]), files[..n], files[n]);
    }
  }

  /** Two different entries never share a path. */
  ghost predicate PathsTell(files: seq<Entry>) {
    forall x, y :: x in files && y in files && x.path == y.path ==> x == y
  }

  lemma DropLast<T>(s: seq<T>)
    requires s != []
    ensures multiset(s[..|s| - 1]) == multiset(s) - multiset{s[|s| - 1]} && s[|s| - 1] in multiset(s)
  {
    assert s == s[..|s| - 1] + [s[|s| - 1]];
  }

  lemma PullOut<T>(s: seq<T>, i: nat)
    requires i < |s|
    ensures multiset([s[i]] + (s[..i] + s[i + 1..])) == multiset(s)
  {
    assert s == s[..i] + [s[i]] + s[i + 1..];
  }

  lemma SameLast(a: seq<Entry>, b: seq<Entry>)
    requires InOrder(a) && InOrder(b) && multiset(a) == multiset(b) && PathsTell(a) && a != [] && b != []
    ensures a[|a| - 1] == b[|b| - 1]
  {
    DropLast(a);
    DropLast(b);
    LastIsLargest(a, b[|b| - 1]);
    LastIsLargest(b, a[|a| - 1]);
    LeqAntisymmetric(a[|a| - 1].path, b[|b| - 1].path);
    SameMultisetSameEntries(a, b);
  }

  /** Two ordered sequences of the same entries. */
  ghost predicate BothInOrder(a: seq<Entry>, b: seq<Entry>) {
    InOrder(a) && InOrder(b) && multiset(a) == multiset(b) && PathsTell(a)
  }

  lemma BothShorter(a: seq<Entry>, b: seq<Entry>)
    requires BothInOrder(a, b) && a != [] && b != []
    ensures a[|a| - 1] == b[|b| - 1] && BothInOrder(a[..|a| - 1], b[..|b| - 1])
  {
    hide PathsTell;
    SameLast(a, b);
    DropLast(a);
    DropLast(b);
    ShorterTell(a, |a| - 1);
  }

  lemma SameLength(a: seq<Entry>, b: seq<Entry>)
    requires BothInOrder(a, b)
    ensures |a| == |b|
  {
    assert |a| == |multiset(a)| == |multiset(b)| == |b|;
  }

  lemma {:induction false} OrderIsUnique(a: seq<Entry>, b: seq<Entry>)
    requires BothInOrder(a, b)
    ensures a == b
    decreases |a|
  {
    hide BothInOrder;
    SameLength(a, b);
    if a != [] {
      var n := |a| - 1;
      BothShorter(a, b);
      OrderIsUnique(a[..n], b[..n]);
      LastEntry(a);
      LastEntry(b);
    }
  }

  lemma ShorterTell(a: seq<Entry>, n: nat)
    requires n <= |a| && PathsTell(a)
    ensures PathsTell(a[..n])
  {
  }

  lemma LastIsLargest(s: seq<Entry>, e: Entry)
    requires InOrder(s) && s != [] && e in multiset(s)
    ensures Leq(e.path, s[|s| - 1].path)
  {
    var i :| 0 <= i < |s| && s[i] == e;
    LeqTotal(e.path, e.path);
  }

  lemma SameMultisetSameEntries(a: seq<Entry>, b: seq<Entry>)
    requires multiset(a) == multiset(b)
    ensures forall x :: x in a <==> x in b
  {
    forall x ensures x in a <==> x in b {
      assert x in a <==> x in multiset(a);
      assert x in b <==> x in multiset(b);
    }
  }

  /** When paths tell entries apart, the text does not depend on the order of the rows. */
  lemma TextIgnoresOrder(m: Manifest, a: seq<Entry>, b: seq<Entry>)
    requires multiset(a) == multiset(b) && PathsTell(a)
    ensures CanonicalText(m, a) == CanonicalText(m, b)
  {
    SortedSorts(a);
    SortedSorts(b);
    SameMultisetSameEntries(a, Sorted(a));
    OrderIsUnique(Sorted(a), Sorted(b));
  }

  // ----- the other direction: stability shows -----------------------------------------------

  function OfPath(files: seq<Entry>, path: string): seq<Entry> {
    if files == [] then []
    else
      var n := |files| - 1;
      OfPath(files[..n], path) + if files[n].path == path then [files[n]] else []
  }

  lemma {:induction false} InsertIsStable(s: seq<Entry>, e: Entry, path: string)
    requires InOrder(s)
    ensures OfPath(Insert(s, e), path) == OfPath(s + [e], path)
  {
    assert (s + [e])[..|s|] == s;
    if s != [] {
      var n := |s| - 1;
      if !Leq(s[n].path, e.path) {
        InsertIsStable(s[..n], e, path);
        var r := Insert(s[..n], e);
        assert (r + [s[n]])[..|r|] == r;
        assert (s[..n] + [e])[..n] == s[..n];
        LeqTotal(e.path, e.path);
      }
    }
  }

  lemma {:induction false} SortIsStable(files: seq<Entry>, path: string)
    ensures OfPath(Sorted(files), path) == OfPath(files, path)
  {
    if files != [] {
      var n := |files| - 1;
      SortIsStable(files[..n], path);
      SortedSorts(files[..n]);
      InsertIsStable(Sorted(files[..n]), files[n], path);
      assert (Sorted(files[..n]) + [files[n]])[..n] == Sorted(files[..n]);
    }
  }

  lemma {:induction false} OfPathFirst(e: Entry, rest: seq<Entry>)
    ensures OfPath([e] + rest, e.path) != [] && OfPath([e] + rest, e.path)[0] == e
  {
    var all := [e] + rest;
    var n := |all| - 1;
    if rest == [] {
      assert all[..n] == [];
    } else {
      assert all[..n] == [e] + rest[..n - 1];
      OfPathFirst(e, rest[..n - 1]);
    }
  }

  /** The rows with row `i` moved to the front. */
  function Fronted(files: seq<Entry>, i: nat): (r: seq<Entry>)
    requires i < |files|
  {
    [files[i]] + (files[..i] + files[i + 1..])
  }

  /** After sorting, the row in front is still the first of its path. */
  lemma FrontShows(files: seq<Entry>, i: nat)
    requires i < |files|
    ensures multiset(Fronted(files, i)) == multiset(files)
    ensures var found := OfPath(Sorted(Fronted(files, i)), files[i].path);
            found != [] && found[0] == files[i]
  {
    hide Sorted, OfPath;
    PullOut(files, i);
    SortIsStable(Fronted(files, i), files[i].path);
    OfPathFirst(files[i], files[..i] + files[i + 1..]);
  }

  /** Two rows with one path and different content: some order changes the text. */
  lemma SharedPathShowsOrder(m: Manifest, files: seq<Entry>, i: nat, j: nat)
    requires i < j < |files| && files[i].path == files[j].path && files[i] != files[j]
    ensures exists a, b :: multiset(a) == multiset(files) && multiset(b) == multiset(files)
                           && CanonicalText(m, a) != CanonicalText(m, b)
  {
    hide Sorted, OfPath, Fronted;
    FrontShows(files, i);
    FrontShows(files, j);
    assert CanonicalText(m, Fronted(files, i)) != CanonicalText(m, Fronted(files, j));
  }

  /** The text is a function of the collection of rows exactly when no two different
      entries share a path. */
  lemma OrderMattersExactly(m: Manifest, files: seq<Entry>)
    ensures PathsTell(files) <==>
            forall a, b :: multiset(a) == multiset(files) && multiset(b) == multiset(files) ==>
              CanonicalText(m, a) == CanonicalText(m, b)
  {
    if PathsTell(files) {
      forall a, b | multiset(a) == multiset(files) && multiset(b) == multiset(files)
        ensures CanonicalText(m, a) == CanonicalText(m, b)
      {
        SameMultisetSameEntries(files, a);
        TextIgnoresOrder(m, a, b);
      }
    } else {
      var x, y :| x in files && y in files && x.path == y.path && x != y;
      var i :| 0 <= i < |files| && files[i] == x;
      var j :| 0 <= j < |files| && files[j] == y;
      if i < j {
        SharedPathShowsOrder(m, files, i, j);
      } else {
        SharedPathShowsOrder(m, files, j, i);
      }
    }
  }

  // ----- the text is the digest of the pipeline ----------------------------------------------

  ghost predicate PathsDiffer(files: seq<Entry>) {
    forall i, j :: 0 <= i < j < |files| ==> files[i].path != files[j].path
  }

  function EntrySet(files: seq<Entry>): set<Entry> {
    set e | e in files
  }

  lemma {:induction false} DistinctMultiset(files: seq<Entry>)
    requires PathsDiffer(files)
    ensures multiset(files) == multiset(EntrySet(files))
  {
    if files == [] {
      assert EntrySet(files) == {};
    } else {
      var n := |files| - 1;
      DistinctMultiset(files[..n]);
      assert files == files[..n] + [files[n]];
      assert EntrySet(files) == EntrySet(files[..n]) + {files[n]};
      assert files[n] !in EntrySet(files[..n]);
    }
  }

  /** For inventories without repeated paths, equal texts mean equal manifests and equal
      sets of entries: a digest value carries exactly that. */
  lemma DigestDeterminesContent(m: Manifest, a: seq<Entry>, n: Manifest, b: seq<Entry>)
    requires PathsDiffer(a) && PathsDiffer(b)
    ensures CanonicalText(m, a) == CanonicalText(n, b) <==> Digest(m, EntrySet(a)) == Digest(n, EntrySet(b))
  {
    DistinctMultiset(a);
    DistinctMultiset(b);
    if EntrySet(a) == EntrySet(b) {
      TextIgnoresOrder(n, a, b);
    }
    if Sorted(a) == Sorted(b) {
      SortedSorts(a);
      SortedSorts(b);
      SameMultisetSameEntries(a, b);
      assert EntrySet(a) == EntrySet(b);
    }
  }
}
