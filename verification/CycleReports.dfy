/**
 How often the cycle search reports one cycle
 (scripts/check-production-readiness-manifest.py).
 */
module CycleReports {
  import opened DependencyCycles

  /** Two closed lists go round the same cycle, from possibly different starts. */
  ghost predicate SameCycle(a: seq<string>, b: seq<string>) {
    a != [] && b != [] && exists k :: Turned(a, b, k)
  }

  predicate Turned(a: seq<string>, b: seq<string>, k: nat)
    requires a != [] && b != []
  {
    k < |a| && b[..|b| - 1] == a[k..|a| - 1] + a[..k]
  }

  ghost predicate ReportedOnce(cycles: seq<seq<string>>) {
    forall i, j :: 0 <= i < j < |cycles| ==> !SameCycle(cycles[i], cycles[j])
  }

  /** A known dependency that a node lists twice, and a walk from it back to that node. */
  predicate RepeatedAt(g: Graph, u: string, i: nat, j: nat, w: seq<string>) {
    && u in g.deps && i < j < |g.deps[u]| && g.deps[u][i] == g.deps[u][j] && g.deps[u][i] in g.deps
    && w != [] && Walk(g, w) && w[0] == g.deps[u][i] && w[|w| - 1] == u
  }

  ghost predicate RepeatsOnCycle(g: Graph) {
    exists u, i, j, w :: RepeatedAt(g, u, i, j, w)
  }

  // ===== Without such a repetition no cycle is reported twice

  /** The dependency that closes a reported cycle. */
  function Source(w: seq<string>): string
    requires |w| >= 2
  {
    w[|w| - 2]
  }

  function Target(w: seq<string>): string
    requires |w| >= 2
  {
    w[|w| - 1]
  }

  /** New reports are closed from nodes found since, or from `node` to one of `targets`. */
  ghost predicate ClosedFrom(m: Marks, r: Marks, node: string, targets: seq<string>) {
    forall i :: |m.cycles| <= i < |r.cycles| ==>
      && |r.cycles[i]| >= 2 && Source(r.cycles[i]) in r.state
      && (Source(r.cycles[i]) !in m.state || (Source(r.cycles[i]) == node && Target(r.cycles[i]) in targets))
  }

  /** No two new reports are closed by the same dependency. */
  ghost predicate ClosedApart(m: Marks, r: Marks) {
    forall i, j :: |m.cycles| <= i < j < |r.cycles| && |r.cycles[i]| >= 2 && |r.cycles[j]| >= 2 ==>
      Source(r.cycles[i]) != Source(r.cycles[j]) || Target(r.cycles[i]) != Target(r.cycles[j])
  }

  lemma {:induction false} VisitApart(g: Graph, m: Marks, node: string)
    requires Sound(g, m) && Reaches(g, m, node) && node !in m.state && !RepeatsOnCycle(g)
    ensures ClosedFrom(m, Visited(g, m, node), node, []) && ClosedApart(m, Visited(g, m, node))
    decreases |White(g, m)|, 1, 0
  {
    hide Sound, White, RepeatsOnCycle, VisitedUpTo;
    PushSound(g, m, node);
    PushShrinks(g, m, node);
    UpToApart(g, Pushed(m, node), node, |g.deps[node]|);
  }

  lemma {:induction false} UpToApart(g: Graph, m: Marks, node: string, n: nat)
    requires Sound(g, m) && m.stack != [] && m.stack[|m.stack| - 1] == node && node in g.deps && n <= |g.deps[node]|
    requires node in m.state && !RepeatsOnCycle(g)
    ensures ClosedFrom(m, VisitedUpTo(g, m, node, n), node, g.deps[node][..n])
    ensures ClosedApart(m, VisitedUpTo(g, m, node, n))
    decreases |White(g, m)|, 2, n
  {
    hide Sound, White, RepeatsOnCycle, ClosedFrom, ClosedApart, Later;
    if n == 0 {
      NothingNew(m, node);
    } else {
      var p, d := VisitedUpTo(g, m, node, n - 1), g.deps[node][n - 1];
      UpToApart(g, m, node, n - 1);
      UpToSound(g, m, node, n - 1);
      MoreTargets(m, p, node, g.deps[node][..n - 1], g.deps[node][..n]);
      if d in g.deps {
        assert Edge(g, node, d);
        LaterShrinks(g, m, p);
        SameStack(m, p);
        if d !in p.state {
          VisitApart(g, p, d);
          VisitSound(g, p, d);
          JoinApart(m, p, Visited(g, p, d), node, g.deps[node][..n], d);
        } else if p.state[d] == 1 {
          MarkerMeaning(g, p, d);
          ReportApart(g, m, p, node, n);
        } else {
          TwoMarkers(g, p, d);
        }
      }
    }
  }

  lemma NothingNew(m: Marks, node: string)
    ensures ClosedFrom(m, m, node, []) && ClosedApart(m, m)
  {
  }

  lemma MoreTargets(m: Marks, p: Marks, node: string, few: seq<string>, many: seq<string>)
    requires ClosedFrom(m, p, node, few) && few <= many
    ensures ClosedFrom(m, p, node, many)
  {
  }

  lemma SameStack(m: Marks, p: Marks)
    requires Later(m, p)
    ensures p.stack == m.stack && m.cycles <= p.cycles && m.state.Keys <= p.state.Keys
  {
  }

  lemma TwoMarkers(g: Graph, m: Marks, node: string)
    requires Sound(g, m) && node in m.state && m.state[node] != 1
    ensures m.state[node] == 2
  {
  }

  lemma JoinApart(m: Marks, p: Marks, r: Marks, node: string, targets: seq<string>, d: string)
    requires ClosedFrom(m, p, node, targets) && ClosedApart(m, p) && ClosedFrom(p, r, d, []) && ClosedApart(p, r)
    requires m.cycles <= p.cycles && m.state.Keys <= p.state.Keys && Later(p, r)
    ensures ClosedFrom(m, r, node, targets) && ClosedApart(m, r)
  {
    assert forall i :: 0 <= i < |p.cycles| ==> r.cycles[i] == p.cycles[i];
  }

  /** The node's own report: were it closed by this dependency before, the dependency would be listed twice. */
  lemma ReportApart(g: Graph, m: Marks, p: Marks, node: string, n: nat)
    requires Sound(g, p) && p.stack != [] && p.stack[|p.stack| - 1] == node && node in g.deps && 0 < n <= |g.deps[node]|
    requires node in p.state && g.deps[node][n - 1] in g.deps && g.deps[node][n - 1] in p.stack && !RepeatsOnCycle(g)
    requires ClosedFrom(m, p, node, g.deps[node][..n - 1]) && ClosedApart(m, p) && m.cycles <= p.cycles && node in m.state
    ensures var r := p.(cycles := p.cycles + [CycleOf(p.stack, g.deps[node][n - 1])]);
      ClosedFrom(m, r, node, g.deps[node][..n]) && ClosedApart(m, r)
  {
    hide RepeatsOnCycle, Ranked, Closed, Accounted, ClosedWalk;
    var d := g.deps[node][n - 1];
    var w := CycleOf(p.stack, d);
    assert Source(w) == node && Target(w) == d;
    if d in g.deps[node][..n - 1] {
      ListedTwice(g, p.stack, node, n);
    }
    assert d in g.deps[node][..n];
  }

  lemma ListedTwice(g: Graph, stack: seq<string>, node: string, n: nat)
    requires Walk(g, stack) && stack != [] && stack[|stack| - 1] == node && node in g.deps && 0 < n <= |g.deps[node]|
    requires g.deps[node][n - 1] in g.deps && g.deps[node][n - 1] in stack && g.deps[node][n - 1] in g.deps[node][..n - 1]
    ensures RepeatsOnCycle(g)
  {
    var d := g.deps[node][n - 1];
    var k := FirstIndex(stack, d);
    var i :| 0 <= i < n - 1 && g.deps[node][i] == d;
    PartWalks(g, stack, k);
    assert RepeatedAt(g, node, i, n - 1, stack[k..]);
  }

  lemma PartWalks(g: Graph, w: seq<string>, k: nat)
    requires Walk(g, w) && k < |w|
    ensures Walk(g, w[k..])
  {
    forall i | 0 <= i < |w[k..]| - 1
      ensures Edge(g, w[k..][i], w[k..][i + 1])
    {
      assert Edge(g, w[k + i], w[k + i + 1]);
    }
  }

  lemma {:induction false} SweepApart(g: Graph, n: nat)
    requires GraphValid(g) && n <= |g.nodes| && !RepeatsOnCycle(g)
    ensures ClosedFrom(UNMARKED, Swept(g, n), "", []) && ClosedApart(UNMARKED, Swept(g, n))
  {
    hide Sound, RepeatsOnCycle, Visited, ClosedFrom, ClosedApart;
    if n == 0 {
      NothingNew(UNMARKED, "");
    } else {
      SweepApart(g, n - 1);
      SweepSound(g, n - 1);
      var p, node := Swept(g, n - 1), g.nodes[n - 1];
      if node !in p.state {
        VisitApart(g, p, node);
        VisitSound(g, p, node);
        JoinApart(UNMARKED, p, Visited(g, p, node), "", [], node);
      }
    }
  }

  lemma TurnEnds(c: seq<string>, k: nat)
    requires 0 < k < |c|
    ensures (c[k..] + c[..k])[0] == c[k] && (c[k..] + c[..k])[|c| - k] == c[0]
  {
  }

  /** Lists that both follow the order of discovery go round the same cycle only if they are equal. */
  lemma RisingTurn(found: seq<string>, a: seq<string>, b: seq<string>, k: nat)
    requires |a| >= 2 && |b| >= 2 && a[0] == a[|a| - 1] && b[0] == b[|b| - 1]
    requires Rising(found, a[..|a| - 1]) && Rising(found, b[..|b| - 1]) && Turned(a, b, k)
    ensures a == b
  {
    var c, d := a[..|a| - 1], b[..|b| - 1];
    assert d == c[k..] + c[..k];
    if k == 0 || k == |c| {
      assert a == c + [c[0]] && b == d + [d[0]];
    } else {
      TurnEnds(c, k);
    }
  }

  /** In every order of the nodes. */
  lemma NoRepetitionReportedOnce(g: Graph)
    requires GraphValid(g) && !RepeatsOnCycle(g)
    ensures ReportedOnce(Cycles(g))
  {
    hide Swept, RepeatsOnCycle, Rising;
    SweepApart(g, |g.nodes|);
    SweepSound(g, |g.nodes|);
    var m := Swept(g, |g.nodes|);
    forall i, j | 0 <= i < j < |m.cycles|
      ensures !SameCycle(m.cycles[i], m.cycles[j])
    {
      var a, b := m.cycles[i], m.cycles[j];
      assert ClosedWalk(g, a) && ClosedWalk(g, b);
      forall k: nat
        ensures !Turned(a, b, k)
      {
        if Turned(a, b, k) {
          RisingTurn(m.found, a, b, k);
        }
      }
    }
  }

  // ===== With one, some order of the nodes reports a cycle twice

  ghost predicate SomeTwice(m: Marks) {
    exists a, b :: TwiceAt(m, a, b)
  }

  predicate TwiceAt(m: Marks, a: nat, b: nat) {
    a < b < |m.cycles| && m.cycles[a] == m.cycles[b] && m.cycles[a] != []
  }

  lemma TwiceStays(m: Marks, r: Marks)
    requires SomeTwice(m) && m.cycles <= r.cycles
    ensures SomeTwice(r)
  {
    var a: nat, b: nat :| TwiceAt(m, a, b);
    assert TwiceAt(r, a, b);
  }

  /** The node that lists one dependency twice, visited below that dependency. */
  lemma {:induction false} ReportsTwice(g: Graph, m: Marks, u: string, i: nat, j: nat, n: nat)
    requires Sound(g, m) && m.stack != [] && m.stack[|m.stack| - 1] == u && u in g.deps
    requires i < j < n <= |g.deps[u]| && g.deps[u][i] == g.deps[u][j] && g.deps[u][i] in g.deps && g.deps[u][i] in m.stack
    ensures SomeTwice(VisitedUpTo(g, m, u, n))
  {
    hide Sound, SomeTwice;
    var r, v := VisitedUpTo(g, m, u, n), g.deps[u][i];
    ReportKept(g, m, u, i, j);
    ReportedAt(g, m, u, j);
    var q := VisitedUpTo(g, m, u, j + 1);
    StagesGrow(g, m, u, j + 1, n);
    TwoReports(VisitedUpTo(g, m, u, j), q, CycleOf(m.stack, v));
    TwiceStays(q, r);
  }

  lemma TwoReports(p: Marks, q: Marks, w: seq<string>)
    requires w in p.cycles && w != [] && q.cycles == p.cycles + [w]
    ensures SomeTwice(q)
  {
    var a :| 0 <= a < |p.cycles| && p.cycles[a] == w;
    assert TwiceAt(q, a, |p.cycles|);
  }

  /** A dependency on the path is reported when its turn comes. */
  lemma ReportedAt(g: Graph, m: Marks, u: string, n: nat)
    requires Sound(g, m) && m.stack != [] && m.stack[|m.stack| - 1] == u && u in g.deps && n < |g.deps[u]|
    requires g.deps[u][n] in g.deps && g.deps[u][n] in m.stack
    ensures VisitedUpTo(g, m, u, n + 1).cycles == VisitedUpTo(g, m, u, n).cycles + [CycleOf(m.stack, g.deps[u][n])]
  {
    hide Sound;
    UpToSound(g, m, u, n);
    OnPathMarked(g, VisitedUpTo(g, m, u, n), g.deps[u][n]);
  }

  lemma OnPathMarked(g: Graph, m: Marks, node: string)
    requires Sound(g, m) && node in m.stack
    ensures node in m.state && m.state[node] == 1
  {
    assert Marked(m, node, 1);
  }

  lemma ReportKept(g: Graph, m: Marks, u: string, i: nat, j: nat)
    requires Sound(g, m) && m.stack != [] && m.stack[|m.stack| - 1] == u && u in g.deps && i < j <= |g.deps[u]|
    requires g.deps[u][i] in g.deps && g.deps[u][i] in m.stack
    ensures CycleOf(m.stack, g.deps[u][i]) in VisitedUpTo(g, m, u, j).cycles
  {
    hide Sound, VisitedUpTo;
    ReportedAt(g, m, u, i);
    StagesGrow(g, m, u, i + 1, j);
  }

  lemma {:induction false} StagesGrow(g: Graph, m: Marks, node: string, lo: nat, hi: nat)
    requires Sound(g, m) && m.stack != [] && m.stack[|m.stack| - 1] == node && node in g.deps && lo <= hi <= |g.deps[node]|
    ensures Later(VisitedUpTo(g, m, node, lo), VisitedUpTo(g, m, node, hi))
    decreases hi
  {
    hide Sound, Later, Visited;
    if lo == hi {
      LaterItself(VisitedUpTo(g, m, node, lo));
    } else {
      StagesGrow(g, m, node, lo, hi - 1);
      UpToSound(g, m, node, hi - 1);
      var p, d := VisitedUpTo(g, m, node, hi - 1), g.deps[node][hi - 1];
      if d in g.deps {
        assert Edge(g, node, d);
        SameStack(m, p);
        VisitSound(g, p, d);
        LaterTransitive(VisitedUpTo(g, m, node, lo), p, Visited(g, p, d));
      }
    }
  }

  /** A node found during a visit is itself visited below everything on the path. */
  lemma {:induction false} TwiceBelow(g: Graph, m: Marks, node: string, u: string, i: nat, j: nat)
    requires Sound(g, m) && Reaches(g, m, node) && node !in m.state && u !in m.state && u in Visited(g, m, node).state
    requires u in g.deps && i < j < |g.deps[u]| && g.deps[u][i] == g.deps[u][j] && g.deps[u][i] in g.deps
    requires g.deps[u][i] in m.stack + [node]
    ensures SomeTwice(Visited(g, m, node))
    decreases |White(g, m)|, 1, 0
  {
    hide Sound, White, SomeTwice, VisitedUpTo;
    PushSound(g, m, node);
    PushShrinks(g, m, node);
    var p := VisitedUpTo(g, Pushed(m, node), node, |g.deps[node]|);
    if node == u {
      ReportsTwice(g, Pushed(m, node), u, i, j, |g.deps[node]|);
    } else {
      TwiceBelowUpTo(g, Pushed(m, node), node, |g.deps[node]|, u, i, j);
    }
    TwiceStays(p, Visited(g, m, node));
  }

  lemma {:induction false} TwiceBelowUpTo(g: Graph, m: Marks, node: string, n: nat, u: string, i: nat, j: nat)
    requires Sound(g, m) && m.stack != [] && m.stack[|m.stack| - 1] == node && node in g.deps && n <= |g.deps[node]|
    requires u !in m.state && u in VisitedUpTo(g, m, node, n).state
    requires u in g.deps && i < j < |g.deps[u]| && g.deps[u][i] == g.deps[u][j] && g.deps[u][i] in g.deps
    requires g.deps[u][i] in m.stack
    ensures SomeTwice(VisitedUpTo(g, m, node, n))
    decreases |White(g, m)|, 2, n
  {
    hide Sound, White, SomeTwice, Later;
    var p, d := VisitedUpTo(g, m, node, n - 1), g.deps[node][n - 1];
    UpToSound(g, m, node, n - 1);
    SameStack(m, p);
    StagesGrow(g, m, node, n - 1, n);
    if u in p.state {
      TwiceBelowUpTo(g, m, node, n - 1, u, i, j);
      SameStack(p, VisitedUpTo(g, m, node, n));
      TwiceStays(p, VisitedUpTo(g, m, node, n));
    } else {
      assert Edge(g, node, d);
      LaterShrinks(g, m, p);
      TwiceBelow(g, p, d, u, i, j);
    }
  }

  /** Once nothing is on the path, what was found is closed under walks. */
  lemma {:induction false} WalkFound(g: Graph, m: Marks, w: seq<string>)
    requires Sound(g, m) && m.stack == [] && w != [] && w[0] in m.state && Walk(g, w)
    ensures w[|w| - 1] in m.state
    decreases |w|
  {
    if |w| > 1 {
      assert Edge(g, w[0], w[1]);
      assert Marked(m, w[0], 1) || Marked(m, w[0], 2);
      PartWalks(g, w, 1);
      WalkFound(g, m, w[1..]);
    }
  }

  lemma {:induction false} SweepsGrow(g: Graph, lo: nat, hi: nat)
    requires GraphValid(g) && lo <= hi <= |g.nodes|
    ensures Swept(g, lo).cycles <= Swept(g, hi).cycles
    decreases hi
  {
    hide Sound, Visited;
    if lo < hi {
      SweepsGrow(g, lo, hi - 1);
      SweepSound(g, hi - 1);
      if g.nodes[hi - 1] !in Swept(g, hi - 1).state {
        VisitSound(g, Swept(g, hi - 1), g.nodes[hi - 1]);
      }
    }
  }

  /** The search that starts at the repeated dependency reports one cycle twice. */
  lemma StartReportsTwice(g: Graph, u: string, i: nat, j: nat, w: seq<string>)
    requires GraphValid(g) && RepeatedAt(g, u, i, j, w) && g.nodes[0] == w[0]
    ensures !ReportedOnce(Cycles(g))
  {
    hide Sound, Visited, SomeTwice;
    var m := Swept(g, 1);
    assert Swept(g, 0) == UNMARKED;
    SweepSound(g, 0);
    SweepSound(g, 1);
    WalkFound(g, m, w);
    TwiceBelow(g, UNMARKED, w[0], u, i, j);
    SweepsGrow(g, 1, |g.nodes|);
    TwiceStays(m, Swept(g, |g.nodes|));
    TwiceIsSame(Swept(g, |g.nodes|));
  }

  lemma TwiceIsSame(m: Marks)
    requires SomeTwice(m)
    ensures !ReportedOnce(m.cycles)
  {
    var a: nat, b: nat :| TwiceAt(m, a, b);
    assert Turned(m.cycles[a], m.cycles[b], 0);
  }

  /** The same dependencies with one node put first. */
  function Without(s: seq<string>, x: string): (r: seq<string>)
    ensures forall y :: y in r <==> y in s && y != x
  {
    if s == [] then [] else if s[0] == x then Without(s[1..], x) else [s[0]] + Without(s[1..], x)
  }

  lemma {:induction false} WithoutDistinct(s: seq<string>, x: string)
    requires Distinct(s)
    ensures Distinct(Without(s, x))
  {
    if s != [] {
      WithoutDistinct(s[1..], x);
      AddedDistinct(Without(s[1..], x), s[0]);
    }
  }

  lemma AddedDistinct(s: seq<string>, x: string)
    requires Distinct(s)
    ensures x !in s ==> Distinct([x] + s)
  {
  }

  lemma StartAt(g: Graph, v: string)
    requires GraphValid(g) && v in g.deps
    ensures GraphValid(Graph([v] + Without(g.nodes, v), g.deps))
  {
    var h := Graph([v] + Without(g.nodes, v), g.deps);
    WithoutDistinct(g.nodes, v);
    AddedDistinct(Without(g.nodes, v), v);
    forall i | 0 <= i < |h.nodes|
      ensures h.nodes[i] in h.deps
    {
      if i > 0 {
        assert h.nodes[i] in Without(g.nodes, v);
      }
    }
  }

  lemma SameRepetitions(g: Graph, h: Graph)
    requires RepeatsOnCycle(h) && h.deps == g.deps
    ensures RepeatsOnCycle(g)
  {
    var u, i: nat, j: nat, w :| RepeatedAt(h, u, i, j, w);
    assert forall a, b :: Edge(h, a, b) <==> Edge(g, a, b);
    assert RepeatedAt(g, u, i, j, w);
  }

  /**
   Whatever the order of the nodes, each cycle is reported only once, exactly when no node lists twice
   a known dependency from which there is a walk back to it.
   */
  lemma EachCycleOnce(g: Graph)
    requires GraphValid(g)
    ensures (forall h :: GraphValid(h) && h.deps == g.deps ==> ReportedOnce(Cycles(h))) <==> !RepeatsOnCycle(g)
  {
    hide GraphValid, Cycles, ReportedOnce;
    if RepeatsOnCycle(g) {
      var u, i, j, w :| RepeatedAt(g, u, i, j, w);
      var h := Graph([w[0]] + Without(g.nodes, w[0]), g.deps);
      StartAt(g, w[0]);
      assert Walk(h, w) by {
        assert forall a, b :: Edge(h, a, b) <==> Edge(g, a, b);
      }
      StartReportsTwice(h, u, i, j, w);
    } else {
      forall h | GraphValid(h) && h.deps == g.deps
        ensures ReportedOnce(Cycles(h))
      {
        if RepeatsOnCycle(h) {
          SameRepetitions(g, h);
        }
        NoRepetitionReportedOnce(h);
      }
    }
  }

  /** Two nodes, the second listing the first twice: one cycle, reported twice. */
  lemma ReportedTwice()
    ensures var g := Graph(["a", "b"], map["a" := ["b"], "b" := ["a", "a"]]);
      GraphValid(g) && !ReportedOnce(Cycles(g))
  {
    var g := Graph(["a", "b"], map["a" := ["b"], "b" := ["a", "a"]]);
    assert RepeatedAt(g, "b", 0, 1, ["a", "b"]);
    StartReportsTwice(g, "b", 0, 1, ["a", "b"]);
  }
}
