/**
 Which source files are test-only as a whole: product and test reachability
 over module edges (scripts/guard_layer_policy.py).
 */
module ModuleReach {

  datatype Target = Target(file: string, test: bool)

  /** The files of one member, their module edges, the conventional test targets and the standard product roots. */
  datatype Member = Member(files: set<string>, edges: map<string, seq<Target>>, tests: set<string>, roots: set<string>)

  predicate MemberValid(m: Member) {
    && m.edges.Keys == m.files && m.tests <= m.files && m.roots <= m.files
    && forall f, i :: f in m.edges && 0 <= i < |m.edges[f]| ==> m.edges[f][i].file in m.files
  }

  /** Edges that count: all of them for test reachability, the non-test ones for product reachability. */
  predicate Counts(t: Target, throughTests: bool) {
    throughTests || !t.test
  }

  predicate Step(m: Member, throughTests: bool, a: string, b: string) {
    a in m.edges && exists i :: 0 <= i < |m.edges[a]| && m.edges[a][i].file == b && Counts(m.edges[a][i], throughTests)
  }

  predicate Walk(m: Member, throughTests: bool, w: seq<string>) {
    w != [] && forall i :: 0 <= i < |w| - 1 ==> Step(m, throughTests, w[i], w[i + 1])
  }

  ghost predicate Reachable(m: Member, throughTests: bool, seeds: set<string>, f: string) {
    exists w :: Walk(m, throughTests, w) && w[0] in seeds && w[|w| - 1] == f
  }

  lemma ReachableStep(m: Member, throughTests: bool, seeds: set<string>, a: string, b: string)
    requires Reachable(m, throughTests, seeds, a) && Step(m, throughTests, a, b)
    ensures Reachable(m, throughTests, seeds, b)
  {
    hide Step;
    var w :| Walk(m, throughTests, w) && w[0] in seeds && w[|w| - 1] == a;
    var v := w + [b];
    assert Walk(m, throughTests, v) by {
      forall i | 0 <= i < |v| - 1
        ensures Step(m, throughTests, v[i], v[i + 1])
      {
        if i < |w| - 1 {
          assert v[i] == w[i] && v[i + 1] == w[i + 1];
        }
      }
    }
  }

  lemma ReachableSeed(m: Member, throughTests: bool, seeds: set<string>, f: string)
    requires f in seeds
    ensures Reachable(m, throughTests, seeds, f)
  {
    assert Walk(m, throughTests, [f]);
  }

  ghost predicate ClosedUnder(m: Member, throughTests: bool, s: set<string>) {
    forall a, b :: a in s && Step(m, throughTests, a, b) ==> b in s
  }

  /** Reachability is the least set that holds the seeds and is closed under the edges. */
  lemma ReachableIsLeast(m: Member, throughTests: bool, seeds: set<string>, s: set<string>, f: string)
    requires seeds <= s && ClosedUnder(m, throughTests, s) && Reachable(m, throughTests, seeds, f)
    ensures f in s
  {
    hide Step;
    var w :| Walk(m, throughTests, w) && w[0] in seeds && w[|w| - 1] == f;
    WalkStays(m, throughTests, s, w, |w| - 1);
  }

  lemma {:induction false} WalkStays(m: Member, throughTests: bool, s: set<string>, w: seq<string>, i: nat)
    requires ClosedUnder(m, throughTests, s) && Walk(m, throughTests, w) && w[0] in s && i < |w|
    ensures w[i] in s
  {
    hide Step;
    if i > 0 {
      WalkStays(m, throughTests, s, w, i - 1);
      assert Step(m, throughTests, w[i - 1], w[i]);
    }
  }

  // ===== The worklist

  method ListOf(s: set<string>) returns (l: seq<string>)
    ensures forall x :: x in l <==> x in s
  {
    l := [];
    var left := s;
    while left != {}
      invariant left <= s && forall x :: x in l <==> x in s - left
      decreases |left|
    {
      var x :| x in left;
      l, left := l + [x], left - {x};
    }
  }

  /** Everything found is reachable, and the edges of everything already handled are followed. */
  ghost predicate Frontier(m: Member, throughTests: bool, seeds: set<string>, reached: set<string>, pending: set<string>) {
    && seeds <= reached && pending <= reached && reached <= m.files
    && (forall f :: f in reached ==> Reachable(m, throughTests, seeds, f))
    && (forall a, b :: a in reached && a !in pending && Step(m, throughTests, a, b) ==> b in reached)
  }

  function SetOf(l: seq<string>): set<string> {
    set x | x in l
  }

  /** Takes the last pending file and adds the targets of its edges that are new. */
  method Follow(m: Member, throughTests: bool, ghost seeds: set<string>, source: string, reached: set<string>,
                pending: seq<string>)
    returns (reached': set<string>, pending': seq<string>)
    requires MemberValid(m) && source in reached
    requires Frontier(m, throughTests, seeds, reached, SetOf(pending) + {source})
    ensures Frontier(m, throughTests, seeds, reached', SetOf(pending'))
    ensures reached <= reached' && (reached' == reached ==> pending' == pending)
  {
    hide Reachable;
    reached', pending' := reached, pending;
    var edges := m.edges[source];
    for i := 0 to |edges|
      invariant Frontier(m, throughTests, seeds, reached', SetOf(pending') + {source})
      invariant reached <= reached' && (reached' == reached ==> pending' == pending)
      invariant forall k :: 0 <= k < i && Counts(edges[k], throughTests) ==> edges[k].file in reached'
    {
      var t := edges[i];
      if Counts(t, throughTests) && t.file !in reached' {
        assert Step(m, throughTests, source, t.file);
        ReachableStep(m, throughTests, seeds, source, t.file);
        assert SetOf(pending' + [t.file]) == SetOf(pending') + {t.file};
        reached', pending' := reached' + {t.file}, pending' + [t.file];
      }
    }
  }

  /** Terminates with exactly the files reachable from the seeds. */
  method Closure(m: Member, throughTests: bool, seeds: set<string>) returns (reached: set<string>)
    requires MemberValid(m) && seeds <= m.files
    ensures reached <= m.files
    ensures forall f :: f in reached <==> Reachable(m, throughTests, seeds, f)
  {
    hide Reachable, Step;
    reached := seeds;
    var pending := ListOf(seeds);
    forall f | f in seeds
      ensures Reachable(m, throughTests, seeds, f)
    {
      ReachableSeed(m, throughTests, seeds, f);
    }
    while pending != []
      invariant Frontier(m, throughTests, seeds, reached, SetOf(pending))
      decreases |m.files - reached|, |pending|
    {
      var source := pending[|pending| - 1];
      var rest := pending[..|pending| - 1];
      assert SetOf(rest) + {source} == SetOf(pending) by { assert pending == rest + [source]; }
      ghost var before := reached;
      reached, pending := Follow(m, throughTests, seeds, source, reached, rest);
      if reached != before {
        Fewer(m.files, before, reached);
      }
    }
    assert ClosedUnder(m, throughTests, reached);
    forall f | Reachable(m, throughTests, seeds, f)
      ensures f in reached
    {
      ReachableIsLeast(m, throughTests, seeds, reached, f);
    }
  }

  lemma Fewer(all: set<string>, a: set<string>, b: set<string>)
    requires a <= b <= all && a != b
    ensures |all - b| < |all - a|
  {
    var x :| x in b && x !in a;
    assert all - b <= (all - a) - {x};
    assert (all - a) - {x} == (all - b) + ((all - a) - {x} - (all - b));
  }

  // ===== The classification

  function Targets(m: Member, onlyTests: bool): set<string> {
    set f, i | f in m.edges && 0 <= i < |m.edges[f]| && (onlyTests ==> m.edges[f][i].test) :: m.edges[f][i].file
  }

  /** Standard roots, and files no edge names that are not conventional tests: ambiguous files stay product. */
  function ProductRoots(m: Member): set<string> {
    m.roots + (m.files - Targets(m, false) - m.tests)
  }

  function TestSeeds(m: Member): set<string> {
    m.tests + Targets(m, true)
  }

  // ----- The same in terms of the edges themselves

  predicate Names(m: Member, a: string, b: string) {
    a in m.edges && exists i :: 0 <= i < |m.edges[a]| && m.edges[a][i].file == b
  }

  predicate NamesInTest(m: Member, a: string, b: string) {
    a in m.edges && exists i :: 0 <= i < |m.edges[a]| && m.edges[a][i] == Target(b, true)
  }

  predicate NamesInProduct(m: Member, a: string, b: string) {
    a in m.edges && exists i :: 0 <= i < |m.edges[a]| && m.edges[a][i] == Target(b, false)
  }

  /** A product root, or a file nothing names that is not a conventional test. */
  ghost predicate ProductStart(m: Member, f: string) {
    f in m.roots || (f in m.files && f !in m.tests && forall a :: !Names(m, a, f))
  }

  /** A conventional test, or the target of a test edge. */
  ghost predicate TestStart(m: Member, f: string) {
    f in m.tests || exists a :: NamesInTest(m, a, f)
  }

  /** Non-test edges alone lead here from a product start. */
  ghost predicate Productive(m: Member, f: string) {
    exists w :: ProductPath(m, w) && ProductStart(m, w[0]) && w[|w| - 1] == f
  }

  /** Edges of either kind lead here from a test start. */
  ghost predicate Tested(m: Member, f: string) {
    exists w :: AnyPath(m, w) && TestStart(m, w[0]) && w[|w| - 1] == f
  }

  predicate ProductPath(m: Member, w: seq<string>) {
    w != [] && forall i :: 0 <= i < |w| - 1 ==> NamesInProduct(m, w[i], w[i + 1])
  }

  predicate AnyPath(m: Member, w: seq<string>) {
    w != [] && forall i :: 0 <= i < |w| - 1 ==> Names(m, w[i], w[i + 1])
  }

  lemma StepsAreEdges(m: Member, a: string, b: string)
    ensures Step(m, true, a, b) <==> Names(m, a, b)
    ensures Step(m, false, a, b) <==> NamesInProduct(m, a, b)
  {
    if Step(m, false, a, b) {
      var i :| 0 <= i < |m.edges[a]| && m.edges[a][i].file == b && Counts(m.edges[a][i], false);
      assert m.edges[a][i] == Target(b, false);
    }
    if NamesInProduct(m, a, b) {
      var i :| 0 <= i < |m.edges[a]| && m.edges[a][i] == Target(b, false);
      assert m.edges[a][i].file == b && Counts(m.edges[a][i], false);
    }
    if Names(m, a, b) {
      var i :| 0 <= i < |m.edges[a]| && m.edges[a][i].file == b;
      assert Counts(m.edges[a][i], true);
    }
  }

  lemma SeedsAreStarts(m: Member, f: string)
    requires MemberValid(m)
    ensures f in TestSeeds(m) <==> TestStart(m, f)
    ensures f in ProductRoots(m) <==> ProductStart(m, f)
  {
    if f in Targets(m, true) {
      var a, i :| a in m.edges && 0 <= i < |m.edges[a]| && m.edges[a][i].test && m.edges[a][i].file == f;
      assert m.edges[a][i] == Target(f, true);
      assert NamesInTest(m, a, f);
    }
    if a :| NamesInTest(m, a, f) {
      var i :| 0 <= i < |m.edges[a]| && m.edges[a][i] == Target(f, true);
    }
    if f in Targets(m, false) {
      var a, i :| a in m.edges && 0 <= i < |m.edges[a]| && m.edges[a][i].file == f;
      assert Names(m, a, f);
    }
  }

  lemma PathsAreWalks(m: Member, w: seq<string>)
    ensures Walk(m, true, w) <==> AnyPath(m, w)
    ensures Walk(m, false, w) <==> ProductPath(m, w)
  {
    hide Step, Names, NamesInProduct;
    forall a, b
      ensures Step(m, true, a, b) <==> Names(m, a, b)
      ensures Step(m, false, a, b) <==> NamesInProduct(m, a, b)
    {
      StepsAreEdges(m, a, b);
    }
  }

  lemma ClassesExact(m: Member, f: string)
    requires MemberValid(m)
    ensures Reachable(m, true, TestSeeds(m), f) <==> Tested(m, f)
    ensures Reachable(m, false, ProductRoots(m), f) <==> Productive(m, f)
  {
    hide Walk, AnyPath, ProductPath, TestStart, ProductStart, TestSeeds, ProductRoots, MemberValid;
    forall w
      ensures Walk(m, true, w) <==> AnyPath(m, w)
      ensures Walk(m, false, w) <==> ProductPath(m, w)
      ensures AnyPath(m, w) || ProductPath(m, w) ==> w != []
    {
      PathsAreWalks(m, w);
      PathsStart(m, w);
    }
    forall g
      ensures g in TestSeeds(m) <==> TestStart(m, g)
      ensures g in ProductRoots(m) <==> ProductStart(m, g)
    {
      SeedsAreStarts(m, g);
    }
  }

  lemma PathsStart(m: Member, w: seq<string>)
    ensures AnyPath(m, w) || ProductPath(m, w) ==> w != []
  {
  }

  lemma SeedsAreFiles(m: Member)
    requires MemberValid(m)
    ensures ProductRoots(m) <= m.files && TestSeeds(m) <= m.files
  {
  }

  lemma StartsTested(m: Member, a: string, f: string)
    requires NamesInTest(m, a, f)
    ensures Tested(m, f)
  {
    hide NamesInTest;
    assert AnyPath(m, [f]) && TestStart(m, [f][0]);
  }

  lemma StartsProductive(m: Member, f: string)
    requires f in m.roots || (f in m.files && f !in m.tests && forall a :: !Names(m, a, f))
    ensures Productive(m, f)
  {
    hide Names;
    assert ProductPath(m, [f]) && ProductStart(m, [f][0]);
  }

  /** Collects the files some edge, or some test edge, points at. */
  method CollectTargets(m: Member) returns (all: set<string>, tested: set<string>)
    requires MemberValid(m)
    ensures all == Targets(m, false) && tested == Targets(m, true)
  {
    all, tested := {}, {};
    var left := m.files;
    while left != {}
      invariant left <= m.files
      invariant all == set f, i | f in m.edges && f !in left && 0 <= i < |m.edges[f]| :: m.edges[f][i].file
      invariant tested == set f, i | f in m.edges && f !in left && 0 <= i < |m.edges[f]| && m.edges[f][i].test :: m.edges[f][i].file
      decreases |left|
    {
      var f :| f in left;
      left := left - {f};
      all := all + set i | 0 <= i < |m.edges[f]| :: m.edges[f][i].file;
      tested := tested + set i | 0 <= i < |m.edges[f]| && m.edges[f][i].test :: m.edges[f][i].file;
    }
  }

  /**
   A file is excluded exactly when a conventional test or the target of a test edge leads to it, and no
   product root and no unnamed non-test file does through non-test edges.
   */
  method WholeTestOnly(m: Member) returns (excluded: set<string>)
    requires MemberValid(m)
    ensures forall f :: f in excluded <==> Tested(m, f) && !Productive(m, f)
    ensures forall a, f :: NamesInTest(m, a, f) && !Productive(m, f) ==> f in excluded
    ensures forall f :: f in m.files && f !in m.tests && (forall a :: !Names(m, a, f)) ==> f !in excluded
    ensures excluded !! m.roots
  {
    hide Reachable;
    SeedsAreFiles(m);
    var all, tested := CollectTargets(m);
    var product := Closure(m, false, m.roots + (m.files - all - m.tests));
    var test := Closure(m, true, m.tests + tested);
    excluded := test - product;
    hide Tested, Productive, Names, NamesInTest;
    forall f
      ensures f in excluded <==> Tested(m, f) && !Productive(m, f)
    {
      ClassesExact(m, f);
    }
    forall a, f
      ensures NamesInTest(m, a, f) ==> Tested(m, f)
    {
      if NamesInTest(m, a, f) {
        StartsTested(m, a, f);
      }
    }
    forall f | f in m.roots || (f in m.files && f !in m.tests && forall a :: !Names(m, a, f))
      ensures Productive(m, f)
    {
      StartsProductive(m, f);
    }
  }
}
