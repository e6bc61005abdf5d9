/**
 The length-framed digest of a set of files
 (contracts/scripts/release_manifest.py).  A path stands for its UTF-8 bytes,
 whose byte order is the order of the code points.
 */
module SourceDigest {
  import opened Wire
  import Sorting

  datatype File = File(path: Bytes, content: Bytes)
  datatype Refusal = DuplicatePath | TooLong

  // ===== Sorting by path

  /** Paths in ascending order; equal paths may still stand next to each other. */
  predicate Ascending(fs: seq<File>) {
    forall i :: 0 <= i < |fs| - 1 ==> !Less(fs[i + 1].path, fs[i].path)
  }

  predicate StrictlyAscending(fs: seq<File>) {
    forall i, j :: 0 <= i < j < |fs| ==> Less(fs[i].path, fs[j].path)
  }

  predicate Distinct(fs: seq<File>) {
    forall i, j :: 0 <= i < j < |fs| ==> fs[i].path != fs[j].path
  }

  predicate NotAfter(a: File, b: File) {
    !Less(b.path, a.path)
  }

  function Sort(fs: seq<File>): seq<File> {
    Sorting.Sort(NotAfter, fs)
  }

  lemma {:induction false} LessTransitive(a: Bytes, b: Bytes, c: Bytes)
    requires Less(a, b) && Less(b, c)
    ensures Less(a, c)
  {
    if a != [] && b != [] && c != [] && a[0] == b[0] == c[0] {
      LessTransitive(a[1..], b[1..], c[1..]);
    }
  }

  lemma SortKeeps(fs: seq<File>)
    ensures multiset(Sort(fs)) == multiset(fs)
  {
    Sorting.SortKeeps(NotAfter, fs);
  }

  lemma SortAscends(fs: seq<File>)
    ensures Ascending(Sort(fs))
  {
    hide Less, Sorting.Sort;
    forall x: File, y: File
      ensures NotAfter(x, y) || NotAfter(y, x)
    {
      LessTotal(x.path, y.path);
    }
    Sorting.SortSorts(NotAfter, fs);
    forall i | 0 <= i < |Sort(fs)| - 1
      ensures !Less(Sort(fs)[i + 1].path, Sort(fs)[i].path)
    {
      assert NotAfter(Sort(fs)[i], Sort(fs)[i + 1]);
    }
  }

  // ===== Duplicates end up side by side

  predicate NeighboursDiffer(fs: seq<File>) {
    forall i :: 0 <= i < |fs| - 1 ==> fs[i].path != fs[i + 1].path
  }

  lemma {:induction false} NeighboursSuffice(fs: seq<File>, i: nat, j: nat)
    requires Ascending(fs) && NeighboursDiffer(fs) && i < j < |fs|
    ensures Less(fs[i].path, fs[j].path)
  {
    hide Less;
    LessTotal(fs[j - 1].path, fs[j].path);
    assert !Less(fs[j - 1 + 1].path, fs[j - 1].path);
    if i < j - 1 {
      NeighboursSuffice(fs, i, j - 1);
      LessTransitive(fs[i].path, fs[j - 1].path, fs[j].path);
    }
  }

  lemma AscendingDistinct(fs: seq<File>)
    requires Ascending(fs)
    ensures NeighboursDiffer(fs) <==> Distinct(fs)
    ensures Distinct(fs) ==> StrictlyAscending(fs)
  {
    hide Less;
    if NeighboursDiffer(fs) {
      forall i, j | 0 <= i < j < |fs|
        ensures Less(fs[i].path, fs[j].path) && fs[i].path != fs[j].path
      {
        NeighboursSuffice(fs, i, j);
        LessTotal(fs[i].path, fs[j].path);
      }
    }
  }

  /** Whether some path occurs twice does not depend on the order. */
  lemma DistinctSorted(fs: seq<File>)
    ensures Distinct(Sort(fs)) <==> Distinct(fs)
  {
    hide Sort, Distinct;
    SortKeeps(fs);
    DistinctOfMultiset(fs, Sort(fs));
    DistinctOfMultiset(Sort(fs), fs);
  }

  // ===== The preimage

  predicate Framable(f: File) {
    |f.path| < Pow256(4) && |f.content| < Pow256(8)
  }

  function PutFiles(fs: seq<File>, rest: Bytes): Bytes {
    if fs == [] then rest
    else ToBE(|fs[0].path|, 4) + (fs[0].path + (ToBE(|fs[0].content|, 8) + (fs[0].content + PutFiles(fs[1..], rest))))
  }

  predicate AllFramable(fs: seq<File>) {
    forall i :: 0 <= i < |fs| ==> Framable(fs[i])
  }

  /** What the hasher is fed, or why the files are refused. */
  function Preimage(domain: Bytes, files: seq<File>): Result<Bytes, Refusal> {
    if !Distinct(files) then Err(DuplicatePath)
    else if !AllFramable(files) then Err(TooLong)
    else Ok(domain + ([0] + PutFiles(Sort(files), [])))
  }

  /** Feeds the sorted files to the hasher one by one, refusing a path equal to the previous one. */
  method Feed(domain: Bytes, files: seq<File>) returns (r: Result<Bytes, Refusal>)
    ensures r.Ok? <==> Preimage(domain, files).Ok?
    ensures r.Ok? ==> r == Preimage(domain, files)
  {
    hide Less, Sort, Framable, Ascending, Distinct;
    var sorted := Sort(files);
    SortAscends(files);
    AscendingDistinct(sorted);
    DistinctSorted(files);
    FramableSorted(files);
    var w := new Buffer();
    w.Extend(domain, [0] + PutFiles(sorted, []));
    w.Extend([0], PutFiles(sorted, []));
    assert [] + (domain + ([0] + PutFiles(sorted, []))) == domain + ([0] + PutFiles(sorted, []));
    for i := 0 to |sorted|
      invariant w.out + PutFiles(sorted[i..], []) == domain + ([0] + PutFiles(sorted, []))
      invariant forall k :: 0 <= k < i - 1 ==> sorted[k].path != sorted[k + 1].path
      invariant forall k :: 0 <= k < i ==> Framable(sorted[k])
    {
      if i > 0 && sorted[i - 1].path == sorted[i].path {
        return Err(DuplicatePath);
      }
      var f := sorted[i];
      if !Framable(f) {
        return Err(TooLong);
      }
      assert sorted[i..][1..] == sorted[i + 1..];
      FeedFile(w, f, PutFiles(sorted[i + 1..], []));
    }
    assert w.out + [] == w.out;
    r := Ok(w.out);
  }

  method FeedFile(w: Buffer, f: File, ghost todo: Bytes)
    modifies w
    ensures w.out + todo == old(w.out) + (ToBE(|f.path|, 4) + (f.path + (ToBE(|f.content|, 8) + (f.content + todo))))
  {
    hide ToBE;
    w.Extend(ToBE(|f.path|, 4), f.path + (ToBE(|f.content|, 8) + (f.content + todo)));
    w.Extend(f.path, ToBE(|f.content|, 8) + (f.content + todo));
    w.Extend(ToBE(|f.content|, 8), f.content + todo);
    w.Extend(f.content, todo);
  }

  lemma FramableSorted(fs: seq<File>)
    ensures AllFramable(Sort(fs)) <==> AllFramable(fs)
  {
    hide Framable, Sort;
    SortKeeps(fs);
    forall i | 0 <= i < |fs|
      ensures fs[i] in Sort(fs)
    {
      assert fs[i] in multiset(fs);
    }
    forall i | 0 <= i < |Sort(fs)|
      ensures Sort(fs)[i] in fs
    {
      assert Sort(fs)[i] in multiset(Sort(fs));
    }
  }

  // ===== Independent of order

  /** Strictly ascending lists with the same files are the same list. */
  lemma {:induction false} AscendingUnique(a: seq<File>, b: seq<File>)
    requires StrictlyAscending(a) && StrictlyAscending(b) && multiset(a) == multiset(b)
    ensures a == b
  {
    hide Less, StrictlyAscending;
    if a == [] {
      assert |multiset(b)| == 0;
    } else {
      assert |b| == |multiset(b)| == |a|;
      FirstsMeet(a, b);
      TailAscends(a);
      TailAscends(b);
      AscendingUnique(a[1..], b[1..]);
      assert a == [a[0]] + a[1..] && b == [b[0]] + b[1..];
    }
  }

  lemma TailAscends(a: seq<File>)
    requires StrictlyAscending(a) && a != []
    ensures StrictlyAscending(a[1..]) && multiset(a[1..]) == multiset(a) - multiset{a[0]}
  {
    hide Less;
    assert a == [a[0]] + a[1..];
    assert forall i :: 0 <= i < |a| - 1 ==> a[1..][i] == a[i + 1];
  }

  lemma FirstsMeet(a: seq<File>, b: seq<File>)
    requires StrictlyAscending(a) && StrictlyAscending(b) && multiset(a) == multiset(b) && a != [] && b != []
    ensures a[0] == b[0]
  {
    hide Less;
    assert a[0] in multiset(b) && b[0] in multiset(a);
    var i :| 0 <= i < |b| && b[i] == a[0];
    var j :| 0 <= j < |a| && a[j] == b[0];
    LessTotal(a[0].path, b[0].path);
  }

  /** The preimage depends on which files there are, not on the order they come in. */
  lemma OrderIrrelevant(domain: Bytes, a: seq<File>, b: seq<File>)
    requires multiset(a) == multiset(b)
    ensures Preimage(domain, a) == Preimage(domain, b)
  {
    hide Less, Sort, PutFiles, Framable;
    SortKeeps(a);
    SortKeeps(b);
    FramableSorted(a);
    FramableSorted(b);
    DistinctOfMultiset(a, b);
    DistinctOfMultiset(b, a);
    if Distinct(a) && Distinct(b) {
      DistinctSorted(a);
      DistinctSorted(b);
      SortAscends(a);
      SortAscends(b);
      AscendingDistinct(Sort(a));
      AscendingDistinct(Sort(b));
      AscendingUnique(Sort(a), Sort(b));
    }
  }

  lemma DistinctOfMultiset(a: seq<File>, b: seq<File>)
    requires multiset(a) == multiset(b)
    ensures Distinct(a) ==> Distinct(b)
    ensures AllFramable(a) ==> AllFramable(b)
  {
    hide Framable;
    forall i | 0 <= i < |b|
      ensures b[i] in a
    {
      assert b[i] in multiset(a);
    }
    forall i, j | 0 <= i < j < |b| && Distinct(a)
      ensures b[i].path != b[j].path
    {
      assert b[i] in multiset(a) && b[j] in multiset(a);
      var m :| 0 <= m < |a| && a[m] == b[i];
      var n :| 0 <= n < |a| && a[n] == b[j];
      if m == n {
        TwiceInSequence(b, i, j);
        OnceInSequence(a, m);
      }
    }
  }

  lemma TwiceInSequence(b: seq<File>, i: nat, j: nat)
    requires i < j < |b| && b[i] == b[j]
    ensures multiset(b)[b[i]] >= 2
  {
    assert b == b[..i] + [b[i]] + b[i + 1..j] + [b[j]] + b[j + 1..];
  }

  lemma OnceInSequence(a: seq<File>, m: nat)
    requires Distinct(a) && m < |a|
    ensures multiset(a)[a[m]] == 1
  {
    assert a == a[..m] + [a[m]] + a[m + 1..];
    assert a[m] !in a[..m] && a[m] !in a[m + 1..];
    assert multiset(a) == multiset(a[..m]) + multiset{a[m]} + multiset(a[m + 1..]);
  }

  // ===== Injective

  lemma {:induction false} FilesInjective(a: seq<File>, b: seq<File>)
    requires AllFramable(a) && AllFramable(b) && PutFiles(a, []) == PutFiles(b, [])
    ensures a == b
    decreases |a|
  {
    hide Take, TakeU, ToBE, Pow256;
    ReadsBack<()>();
    if a != [] && b != [] {
      var x, y := PutFiles(a, []), PutFiles(b, []);
      assert TakeU(4, x, ()) == TakeU(4, y, ());
      var x1, y1 := TakeU(4, x, ()).rest, TakeU(4, y, ()).rest;
      assert Take(|a[0].path|, x1, ()) == Take(|b[0].path|, y1, ());
      var x2, y2 := Take(|a[0].path|, x1, ()).rest, Take(|b[0].path|, y1, ()).rest;
      assert TakeU(8, x2, ()) == TakeU(8, y2, ());
      var x3, y3 := TakeU(8, x2, ()).rest, TakeU(8, y2, ()).rest;
      assert Take(|a[0].content|, x3, ()) == Take(|b[0].content|, y3, ());
      FilesInjective(a[1..], b[1..]);
      assert a == [a[0]] + a[1..] && b == [b[0]] + b[1..];
    }
  }

  /** Equal preimages mean the same files with the same contents. */
  lemma PreimageInjective(domain: Bytes, a: seq<File>, b: seq<File>)
    requires Preimage(domain, a).Ok? && Preimage(domain, a) == Preimage(domain, b)
    ensures multiset(a) == multiset(b)
  {
    hide Less, Sort, Framable, PutFiles;
    SplitEqual(domain, [0] + PutFiles(Sort(a), []), domain, [0] + PutFiles(Sort(b), []));
    SplitEqual([0], PutFiles(Sort(a), []), [0], PutFiles(Sort(b), []));
    FramableSorted(a);
    FramableSorted(b);
    FilesInjective(Sort(a), Sort(b));
    SortKeeps(a);
    SortKeeps(b);
  }

  // ===== Where everything stands

  /** Each file: the length of its path in four bytes, its path, the length of its content in eight, its content. */
  lemma FileLayout(fs: seq<File>, rest: Bytes)
    requires fs != [] && Framable(fs[0])
    ensures var m, f := PutFiles(fs, rest), fs[0]; var a := 4 + |f.path|;
      && |m| >= a + 8 + |f.content| && FromBE(m[..4]) == |f.path| && m[4..a] == f.path
      && FromBE(m[a..a + 8]) == |f.content| && m[a + 8..a + 8 + |f.content|] == f.content
      && m[a + 8 + |f.content|..] == PutFiles(fs[1..], rest)
  {
    hide ToBE, FromBE, Pow256;
    var m, f := PutFiles(fs, rest), fs[0];
    var t2 := f.content + PutFiles(fs[1..], rest);
    var t1 := ToBE(|f.content|, 8) + t2;
    assert m[0..] == m;
    PeelNumber(m, 0, |f.path|, 4, f.path + t1);
    Peel(m, 4, f.path, t1);
    PeelNumber(m, 4 + |f.path|, |f.content|, 8, t2);
    Peel(m, 12 + |f.path|, f.content, PutFiles(fs[1..], rest));
  }

  /** The domain, a zero byte, and the files in ascending order of their paths. */
  lemma PreimageLayout(domain: Bytes, files: seq<File>)
    requires Preimage(domain, files).Ok?
    ensures exists sorted ::
      && multiset(sorted) == multiset(files) && StrictlyAscending(sorted)
      && Preimage(domain, files).value == domain + [0] + PutFiles(sorted, [])
  {
    hide PutFiles, Sort, Less;
    var sorted := Sort(files);
    SortKeeps(files);
    SortAscends(files);
    DistinctSorted(files);
    AscendingDistinct(sorted);
    assert domain + ([0] + PutFiles(sorted, [])) == domain + [0] + PutFiles(sorted, []);
  }
}
