/**
 Depth-first search for dependency cycles
 (scripts/check-production-readiness-manifest.py).
 */
module DependencyCycles {

  /** Nodes in dictionary order, and the dependencies each lists; a dependency need not be a node. */
  datatype Graph = Graph(nodes: seq<string>, deps: map<string, seq<string>>)

  predicate GraphValid(g: Graph) {
    && Distinct(g.nodes)
    && (forall i :: 0 <= i < |g.nodes| ==> g.nodes[i] in g.deps)
    && (forall n :: n in g.deps ==> n in g.nodes)
  }

  predicate Distinct(s: seq<string>) {
    forall i, j :: 0 <= i < j < |s| ==> s[i] != s[j]
  }

  /** A dependency between two known nodes. */
  predicate Edge(g: Graph, a: string, b: string) {
    a in g.deps && b in g.deps && b in g.deps[a]
  }

  predicate Walk(g: Graph, w: seq<string>) {
    forall i :: 0 <= i < |w| - 1 ==> Edge(g, w[i], w[i + 1])
  }

  predicate ClosedWalk(g: Graph, w: seq<string>) {
    |w| >= 2 && w[0] == w[|w| - 1] && Walk(g, w)
  }

  ghost predicate Acyclic(g: Graph) {
    forall w :: !ClosedWalk(g, w)
  }

  // ===== An order in which every node comes after its dependencies, but for reported ones

  /** Some reported cycle ends with this dependency. */
  ghost predicate ClosedBy(cycles: seq<seq<string>>, u: string, v: string) {
    exists r :: 0 <= r < |cycles| && EndsWith(cycles[r], u, v)
  }

  predicate EndsWith(w: seq<string>, u: string, v: string) {
    |w| >= 2 && w[|w| - 2] == u && w[|w| - 1] == v
  }

  ghost predicate Accounted(g: Graph, order: seq<string>, cycles: seq<seq<string>>) {
    forall i, v :: 0 <= i < |order| && Edge(g, order[i], v) ==> v in order[..i] || ClosedBy(cycles, order[i], v)
  }

  ghost predicate Unreported(w: seq<string>, cycles: seq<seq<string>>) {
    forall i :: 0 <= i < |w| - 1 ==> !ClosedBy(cycles, w[i], w[i + 1])
  }

  /** Along a walk through such an order, the position only falls until a reported dependency is met. */
  lemma {:induction false} WalkFalls(g: Graph, order: seq<string>, cycles: seq<seq<string>>, w: seq<string>, i: nat) returns (j: nat)
    requires Accounted(g, order, cycles) && Walk(g, w) && w != [] && i < |order| && order[i] == w[0] && Unreported(w, cycles)
    ensures j + |w| - 1 <= i && j < |order| && order[j] == w[|w| - 1]
    decreases |w|
  {
    hide ClosedBy;
    if |w| == 1 {
      return i;
    }
    assert Edge(g, w[0], w[1]) && !ClosedBy(cycles, w[0], w[1]);
    var k :| 0 <= k < i && order[k] == w[1];
    forall n | 0 <= n < |w| - 2
      ensures Edge(g, w[1..][n], w[1..][n + 1]) && !ClosedBy(cycles, w[1..][n], w[1..][n + 1])
    {
      assert Edge(g, w[n + 1], w[n + 2]) && !ClosedBy(cycles, w[n + 1], w[n + 2]);
    }
    j := WalkFalls(g, order, cycles, w[1..], k);
  }

  /** Every closed walk contains a dependency that ends a reported cycle. */
  lemma ClosedWalkMeetsReport(g: Graph, order: seq<string>, cycles: seq<seq<string>>, w: seq<string>)
    requires Accounted(g, order, cycles) && Distinct(order) && (forall n :: n in g.deps ==> n in order) && ClosedWalk(g, w)
    ensures exists i :: 0 <= i < |w| - 1 && ClosedBy(cycles, w[i], w[i + 1])
  {
    hide ClosedBy;
    if Unreported(w, cycles) {
      assert Edge(g, w[0], w[1]);
      var i :| 0 <= i < |order| && order[i] == w[0];
      var j := WalkFalls(g, order, cycles, w, i);
    }
  }

  // ===== The state of the search

  /**
   Markers, the current path and the cycles reported so far; and, for the statements below, the nodes
   in the order they were found and in the order they were finished.
   */
  datatype Marks = Marks(
    state: map<string, nat>, stack: seq<string>, cycles: seq<seq<string>>, found: seq<string>, finished: seq<string>)

  const UNMARKED := Marks(map[], [], [], [], [])

  predicate Marked(m: Marks, n: string, marker: nat) {
    n in m.state && m.state[n] == marker
  }

  /** Marker 1 means on the path, marker 2 finished; but for reported dependencies, finished nodes are in dependency order. */
  ghost predicate Consistent(g: Graph, m: Marks) {
    && (forall n :: n in m.state ==> n in g.deps && (m.state[n] == 1 || m.state[n] == 2))
    && (forall n :: Marked(m, n, 1) <==> n in m.stack)
    && (forall n :: Marked(m, n, 2) <==> n in m.finished)
    && Distinct(m.stack) && Walk(g, m.stack) && Distinct(m.finished)
    && (forall i :: 0 <= i < |m.cycles| ==> ClosedWalk(g, m.cycles[i]))
    && Accounted(g, m.finished, m.cycles)
  }

  /** Whatever a finished node depends on has been found. */
  ghost predicate Closed(g: Graph, m: Marks) {
    forall n, v :: n in m.finished && Edge(g, n, v) ==> v in m.state
  }

  /** The nodes of a list were found one after the other. */
  predicate Rising(found: seq<string>, s: seq<string>) {
    && (forall i :: 0 <= i < |s| ==> s[i] in found)
    && (forall i, j :: 0 <= i < j < |s| ==> FirstIndex(found, s[i]) < FirstIndex(found, s[j]))
  }

  /** Paths and cycles follow the order in which nodes are found. */
  ghost predicate Ranked(m: Marks) {
    && (forall n :: n in m.found <==> n in m.state)
    && Rising(m.found, m.stack)
    && (forall i :: 0 <= i < |m.cycles| ==> m.cycles[i] != [] && Rising(m.found, m.cycles[i][..|m.cycles[i]| - 1]))
  }

  ghost predicate Sound(g: Graph, m: Marks) {
    Consistent(g, m) && Closed(g, m) && Ranked(m)
  }

  function FirstIndex(s: seq<string>, x: string): (i: nat)
    requires x in s
    ensures i < |s| && s[i] == x && x !in s[..i]
  {
    if s[0] == x then 0 else
      var i := 1 + FirstIndex(s[1..], x);
      assert s[..i] == [s[0]] + s[1..][..i - 1];
      i
  }

  lemma FirstIndexStays(s: seq<string>, t: seq<string>, x: string)
    requires x in s
    ensures x in s + t && FirstIndex(s + t, x) == FirstIndex(s, x)
  {
    var i, j := FirstIndex(s, x), FirstIndex(s + t, x);
    assert (s + t)[i] == x;
  }

  lemma RisingStays(found: seq<string>, more: seq<string>, s: seq<string>)
    requires Rising(found, s)
    ensures Rising(found + more, s)
  {
    forall i | 0 <= i < |s|
      ensures s[i] in found + more && FirstIndex(found + more, s[i]) == FirstIndex(found, s[i])
    {
      FirstIndexStays(found, more, s[i]);
    }
  }

  function Pushed(m: Marks, node: string): Marks {
    m.(state := m.state[node := 1], stack := m.stack + [node], found := m.found + [node])
  }

  function Popped(m: Marks, node: string): Marks
    requires m.stack != []
  {
    m.(state := m.state[node := 2], stack := m.stack[..|m.stack| - 1], finished := m.finished + [node])
  }

  predicate Reaches(g: Graph, m: Marks, node: string) {
    node in g.deps && (m.stack != [] ==> Edge(g, m.stack[|m.stack| - 1], node))
  }

  lemma PushSound(g: Graph, m: Marks, node: string)
    requires Sound(g, m) && Reaches(g, m, node) && node !in m.state
    ensures Sound(g, Pushed(m, node))
  {
    hide Consistent, Ranked;
    PushConsistent(g, m, node);
    PushRanked(m, node);
  }

  lemma PushRanked(m: Marks, node: string)
    requires Ranked(m) && node !in m.state
    ensures Ranked(Pushed(m, node))
  {
    var p := Pushed(m, node);
    hide Rising;
    RisingExtended(m.found, m.stack, node);
    forall i | 0 <= i < |p.cycles|
      ensures Rising(p.found, p.cycles[i][..|p.cycles[i]| - 1])
    {
      RisingStays(m.found, [node], p.cycles[i][..|p.cycles[i]| - 1]);
    }
  }

  lemma RisingExtended(found: seq<string>, s: seq<string>, node: string)
    requires Rising(found, s) && node !in found
    ensures Rising(found + [node], s + [node])
  {
    RisingStays(found, [node], s);
    forall i | 0 <= i < |s|
      ensures FirstIndex(found + [node], s[i]) < |found|
    {
      FirstIndexStays(found, [node], s[i]);
    }
    assert (found + [node])[|found|] == node;
    assert FirstIndex(found + [node], node) == |found|;
  }

  lemma RisingPart(found: seq<string>, s: seq<string>, from: nat, to: nat)
    requires Rising(found, s) && from <= to <= |s|
    ensures Rising(found, s[from..to])
  {
  }

  lemma PushConsistent(g: Graph, m: Marks, node: string)
    requires Consistent(g, m) && Reaches(g, m, node) && node !in m.state
    ensures Consistent(g, Pushed(m, node))
  {
    hide ClosedWalk, Accounted, Edge;
    var p := Pushed(m, node);
    assert forall n :: n != node ==> (Marked(p, n, 1) <==> Marked(m, n, 1)) && (Marked(p, n, 2) <==> Marked(m, n, 2));
    assert !Marked(m, node, 1) && !Marked(m, node, 2);
    assert forall i :: 0 <= i < |m.stack| ==> p.stack[i] == m.stack[i];
  }

  lemma PopSound(g: Graph, m: Marks, node: string)
    requires Sound(g, m) && m.stack != [] && m.stack[|m.stack| - 1] == node
    requires forall v :: Edge(g, node, v) ==> v in m.state
    requires forall v :: Edge(g, node, v) ==> v in m.finished || ClosedBy(m.cycles, node, v)
    ensures Sound(g, Popped(m, node))
  {
    PopConsistent(g, m, node);
    hide Consistent;
    PopRanked(m, node);
  }

  lemma PopRanked(m: Marks, node: string)
    requires Ranked(m) && node in m.state && m.stack != []
    ensures Ranked(Popped(m, node))
  {
    hide Rising;
    RisingPart(m.found, m.stack, 0, |m.stack| - 1);
    assert m.stack[0..|m.stack| - 1] == m.stack[..|m.stack| - 1];
  }

  lemma PopConsistent(g: Graph, m: Marks, node: string)
    requires Consistent(g, m) && m.stack != [] && m.stack[|m.stack| - 1] == node
    requires forall v :: Edge(g, node, v) ==> v in m.finished || ClosedBy(m.cycles, node, v)
    ensures Marked(m, node, 1) && Consistent(g, Popped(m, node))
  {
    hide ClosedWalk, Accounted, Edge;
    var p := Popped(m, node);
    assert Marked(m, node, 1) && !Marked(m, node, 2);
    assert forall n :: n != node ==> (Marked(p, n, 1) <==> Marked(m, n, 1)) && (Marked(p, n, 2) <==> Marked(m, n, 2));
    assert forall i :: 0 <= i < |p.stack| ==> p.stack[i] == m.stack[i] && p.stack[i] != node;
    assert forall n :: n in m.stack && n != node ==> n in p.stack;
    assert Distinct(p.finished);
    OrderExtended(g, m.finished, m.cycles, node);
  }

  lemma OrderExtended(g: Graph, order: seq<string>, cycles: seq<seq<string>>, node: string)
    requires Accounted(g, order, cycles) && forall v :: Edge(g, node, v) ==> v in order || ClosedBy(cycles, node, v)
    ensures Accounted(g, order + [node], cycles)
  {
    hide Edge, ClosedBy;
    forall i, v | 0 <= i < |order + [node]| && Edge(g, (order + [node])[i], v)
      ensures v in (order + [node])[..i] || ClosedBy(cycles, (order + [node])[i], v)
    {
      if i < |order| {
        assert (order + [node])[..i] == order[..i];
      } else {
        assert (order + [node])[..i] == order;
      }
    }
  }

  /** Reports are never taken back. */
  lemma ClosedByStays(cycles: seq<seq<string>>, more: seq<seq<string>>, u: string, v: string)
    requires ClosedBy(cycles, u, v) && cycles <= more
    ensures ClosedBy(more, u, v)
  {
    var r :| 0 <= r < |cycles| && EndsWith(cycles[r], u, v);
    assert EndsWith(more[r], u, v);
  }

  lemma AccountedStays(g: Graph, order: seq<string>, cycles: seq<seq<string>>, more: seq<seq<string>>)
    requires Accounted(g, order, cycles) && cycles <= more
    ensures Accounted(g, order, more)
  {
    hide Edge, ClosedBy;
    forall i, v | 0 <= i < |order| && Edge(g, order[i], v)
      ensures v in order[..i] || ClosedBy(more, order[i], v)
    {
      if v !in order[..i] {
        ClosedByStays(cycles, more, order[i], v);
      }
    }
  }

  lemma ReportSound(g: Graph, m: Marks, start: nat, node: string)
    requires Sound(g, m) && Reaches(g, m, node) && start < |m.stack| && m.stack[start] == node
    ensures Sound(g, m.(cycles := m.cycles + [m.stack[start..] + [node]]))
    ensures ClosedBy(m.cycles + [m.stack[start..] + [node]], m.stack[|m.stack| - 1], node)
  {
    hide Accounted, Edge, ClosedWalk, Rising;
    ClosesWalk(g, m.stack, start, node);
    RisingPart(m.found, m.stack, start, |m.stack|);
    assert (m.stack[start..] + [node])[..|m.stack| - start] == m.stack[start..|m.stack|];
    var p := m.(cycles := m.cycles + [m.stack[start..] + [node]]);
    AccountedStays(g, m.finished, m.cycles, p.cycles);
    assert EndsWith(p.cycles[|m.cycles|], m.stack[|m.stack| - 1], node);
    assert forall n, k :: Marked(p, n, k) <==> Marked(m, n, k);
  }

  /** Nothing is forgotten, and the path is the same again. */
  predicate Later(m: Marks, p: Marks) {
    && p.stack == m.stack && m.cycles <= p.cycles && m.found <= p.found && m.finished <= p.finished
    && forall n :: n in m.state ==> n in p.state && p.state[n] == m.state[n]
  }

  lemma LaterItself(m: Marks)
    ensures Later(m, m)
  {
  }

  lemma ReportLater(m: Marks, p: Marks)
    requires p == m.(cycles := p.cycles) && m.cycles <= p.cycles
    ensures Later(m, p)
  {
  }

  lemma MarkerMeaning(g: Graph, m: Marks, node: string)
    requires Sound(g, m) && node in m.state
    ensures if m.state[node] == 2 then node in m.finished else node in m.stack
  {
    hide Accounted, ClosedWalk, Distinct, Walk;
    assert Marked(m, node, 2) || Marked(m, node, 1);
  }

  lemma PopLater(g: Graph, m: Marks, p: Marks, node: string)
    requires node !in m.state && Later(Pushed(m, node), p)
    ensures p.stack != [] && Later(m, Popped(p, node)) && p.stack[|p.stack| - 1] == node
  {
  }

  ghost function White(g: Graph, m: Marks): set<string> {
    g.deps.Keys - m.state.Keys
  }

  lemma LaterShrinks(g: Graph, m: Marks, p: Marks)
    requires Later(m, p)
    ensures |White(g, p)| <= |White(g, m)|
  {
    SmallerOrEqual(White(g, p), White(g, m));
  }

  lemma PushShrinks(g: Graph, m: Marks, node: string)
    requires node in g.deps && node !in m.state
    ensures |White(g, Pushed(m, node))| < |White(g, m)|
  {
    assert White(g, Pushed(m, node)) == White(g, m) - {node};
  }

  // ===== The search as a function

  /** The path from a node on it to its end, closed by that node. */
  function CycleOf(stack: seq<string>, node: string): seq<string>
    requires node in stack
  {
    stack[FirstIndex(stack, node)..] + [node]
  }

  /** In every sound state a node marked 1 is on the path, so its position there always exists. */
  ghost function Visited(g: Graph, m: Marks, node: string): (r: Marks)
    requires node in g.deps
    ensures m.state.Keys <= r.state.Keys
    decreases |White(g, m)|, 1, 0
  {
    if node in m.state then
      if m.state[node] == 2 || node !in m.stack then m else m.(cycles := m.cycles + [CycleOf(m.stack, node)])
    else
      PushShrinks(g, m, node);
      var p := VisitedUpTo(g, Pushed(m, node), node, |g.deps[node]|);
      p.(state := p.state[node := 2], stack := m.stack, finished := p.finished + [node])
  }

  /** After the first `n` dependencies of a node that is being visited. */
  ghost function VisitedUpTo(g: Graph, m: Marks, node: string, n: nat): (r: Marks)
    requires node in g.deps && n <= |g.deps[node]|
    ensures m.state.Keys <= r.state.Keys
    decreases |White(g, m)|, 2, n
  {
    if n == 0 then m
    else
      var p := VisitedUpTo(g, m, node, n - 1);
      SmallerOrEqual(White(g, p), White(g, m));
      if g.deps[node][n - 1] in g.deps then Visited(g, p, g.deps[node][n - 1]) else p
  }

  /** After the first `n` nodes in dictionary order. */
  ghost function Swept(g: Graph, n: nat): Marks
    requires GraphValid(g) && n <= |g.nodes|
  {
    if n == 0 then UNMARKED
    else
      var p := Swept(g, n - 1);
      if g.nodes[n - 1] in p.state then p else Visited(g, p, g.nodes[n - 1])
  }

  ghost function Cycles(g: Graph): seq<seq<string>>
    requires GraphValid(g)
  {
    Swept(g, |g.nodes|).cycles
  }

  lemma LaterTransitive(m: Marks, p: Marks, q: Marks)
    requires Later(m, p) && Later(p, q)
    ensures Later(m, q)
  {
  }

  /** The visited node is finished, or the dependency that led to it ends a reported cycle. */
  ghost predicate Settled(m: Marks, r: Marks, node: string) {
    node in r.finished || (m.stack != [] && ClosedBy(r.cycles, m.stack[|m.stack| - 1], node))
  }

  /** A visit keeps the state sound, forgets nothing, and settles its node. */
  lemma {:induction false} VisitSound(g: Graph, m: Marks, node: string)
    requires Sound(g, m) && Reaches(g, m, node)
    ensures var r := Visited(g, m, node);
      Sound(g, r) && Later(m, r) && node in r.state && Settled(m, r, node)
    decreases |White(g, m)|, 1, 0
  {
    hide Sound, Later, White;
    LaterItself(m);
    if node in m.state {
      MarkerMeaning(g, m, node);
      if m.state[node] != 2 {
        ReportSound(g, m, FirstIndex(m.stack, node), node);
        ReportLater(m, Visited(g, m, node));
      }
    } else {
      PushSound(g, m, node);
      PushShrinks(g, m, node);
      var p := VisitedUpTo(g, Pushed(m, node), node, |g.deps[node]|);
      UpToSound(g, Pushed(m, node), node, |g.deps[node]|);
      PopLater(g, m, p, node);
      EdgesFinished(g, p, node);
      PopSound(g, p, node);
    }
  }

  lemma EdgesFinished(g: Graph, p: Marks, node: string)
    requires node in g.deps
    requires forall k :: 0 <= k < |g.deps[node]| && g.deps[node][k] in g.deps ==>
      g.deps[node][k] in p.finished || ClosedBy(p.cycles, node, g.deps[node][k])
    requires forall k :: 0 <= k < |g.deps[node]| && g.deps[node][k] in g.deps ==> g.deps[node][k] in p.state
    ensures forall v :: Edge(g, node, v) ==> v in p.state
    ensures forall v :: Edge(g, node, v) ==> v in p.finished || ClosedBy(p.cycles, node, v)
  {
    hide ClosedBy;
  }

  lemma {:induction false} UpToSound(g: Graph, m: Marks, node: string, n: nat)
    requires Sound(g, m) && m.stack != [] && m.stack[|m.stack| - 1] == node && node in g.deps && n <= |g.deps[node]|
    ensures var r := VisitedUpTo(g, m, node, n);
      && Sound(g, r) && Later(m, r)
      && (forall k :: 0 <= k < n && g.deps[node][k] in g.deps ==> g.deps[node][k] in r.state)
      && (forall k :: 0 <= k < n && g.deps[node][k] in g.deps ==>
           g.deps[node][k] in r.finished || ClosedBy(r.cycles, node, g.deps[node][k]))
    decreases |White(g, m)|, 2, n
  {
    hide Sound, White;
    LaterItself(m);
    if n > 0 {
      var p := VisitedUpTo(g, m, node, n - 1);
      UpToSound(g, m, node, n - 1);
      if g.deps[node][n - 1] in g.deps {
        assert Edge(g, node, g.deps[node][n - 1]);
        LaterShrinks(g, m, p);
        VisitSound(g, p, g.deps[node][n - 1]);
        LaterTransitive(m, p, VisitedUpTo(g, m, node, n));
        StillSettled(g, p, VisitedUpTo(g, m, node, n), node, n - 1);
      }
    }
  }

  lemma StillSettled(g: Graph, p: Marks, r: Marks, node: string, n: nat)
    requires Later(p, r) && node in g.deps && n <= |g.deps[node]|
    requires forall k :: 0 <= k < n && g.deps[node][k] in g.deps ==>
      g.deps[node][k] in p.finished || ClosedBy(p.cycles, node, g.deps[node][k])
    ensures forall k :: 0 <= k < n && g.deps[node][k] in g.deps ==>
      g.deps[node][k] in r.finished || ClosedBy(r.cycles, node, g.deps[node][k])
  {
    hide ClosedBy;
    forall k | 0 <= k < n && g.deps[node][k] in g.deps
      ensures g.deps[node][k] in r.finished || ClosedBy(r.cycles, node, g.deps[node][k])
    {
      if g.deps[node][k] !in p.finished {
        ClosedByStays(p.cycles, r.cycles, node, g.deps[node][k]);
      }
    }
  }

  lemma {:induction false} SweepSound(g: Graph, n: nat)
    requires GraphValid(g) && n <= |g.nodes|
    ensures Sound(g, Swept(g, n)) && Swept(g, n).stack == [] && forall k :: 0 <= k < n ==> g.nodes[k] in Swept(g, n).state
  {
    hide Sound, Visited, White;
    if n == 0 {
      EmptySound(g);
    } else {
      SweepSound(g, n - 1);
      if g.nodes[n - 1] !in Swept(g, n - 1).state {
        VisitSound(g, Swept(g, n - 1), g.nodes[n - 1]);
      }
    }
  }

  lemma EmptySound(g: Graph)
    ensures Sound(g, UNMARKED)
  {
    assert forall n, k :: !Marked(UNMARKED, n, k);
  }

  /**
   Every list reported is a closed walk along dependencies, and every closed walk contains a dependency
   that ends a reported one; so none is reported exactly when there is no closed walk.
   */
  lemma CyclesExact(g: Graph)
    requires GraphValid(g)
    ensures forall i :: 0 <= i < |Cycles(g)| ==> ClosedWalk(g, Cycles(g)[i])
    ensures forall w :: ClosedWalk(g, w) ==> !Unreported(w, Cycles(g))
    ensures Cycles(g) == [] <==> Acyclic(g)
  {
    hide ClosedWalk, Accounted, Distinct, Walk, Swept, ClosedBy;
    SweepSound(g, |g.nodes|);
    var m := Swept(g, |g.nodes|);
    assert forall n :: n in m.state ==> Marked(m, n, 1) || Marked(m, n, 2);
    forall w | ClosedWalk(g, w)
      ensures !Unreported(w, m.cycles) && m.cycles != []
    {
      ClosedWalkMeetsReport(g, m.finished, m.cycles, w);
      var i :| 0 <= i < |w| - 1 && ClosedBy(m.cycles, w[i], w[i + 1]);
      SomethingReported(m.cycles, w[i], w[i + 1]);
    }
    if m.cycles != [] {
      assert ClosedWalk(g, m.cycles[0]);
    }
  }

  lemma SomethingReported(cycles: seq<seq<string>>, u: string, v: string)
    requires ClosedBy(cycles, u, v)
    ensures cycles != []
  {
  }

  // ===== The search as it runs

  class Search {
    const g: Graph
    var state: map<string, nat>
    var stack: seq<string>
    var cycles: seq<seq<string>>
    ghost var found: seq<string>
    ghost var finished: seq<string>

    ghost function View(): Marks
      reads this
    {
      Marks(state, stack, cycles, found, finished)
    }

    constructor (g: Graph)
      ensures this.g == g && View() == UNMARKED
    {
      this.g := g;
      state, stack, cycles, found, finished := map[], [], [], [], [];
    }

    /** The position of a node on the path. */
    method IndexOf(node: string) returns (i: nat)
      requires node in stack
      ensures i == FirstIndex(stack, node)
    {
      i := 0;
      while stack[i] != node
        invariant i < |stack| && node in stack[i..] && FirstIndex(stack, node) == i + FirstIndex(stack[i..], node)
        decreases |stack| - i
      {
        assert stack[i..][1..] == stack[i + 1..];
        i := i + 1;
      }
    }

    /** Marks the node, follows its dependencies, unmarks it; or reports the cycle it closes. */
    method Visit(node: string)
      requires Sound(g, View()) && Reaches(g, View(), node)
      modifies this
      ensures View() == Visited(g, old(View()), node)
      decreases |White(g, View())|, 1
    {
      hide Sound, Later, White, VisitedUpTo;
      ghost var before := View();
      if node in state {
        MarkerMeaning(g, before, node);
        if state[node] == 2 {
          return;
        }
        var start := IndexOf(node);
        cycles := cycles + [stack[start..] + [node]];
        return;
      }
      PushSound(g, before, node);
      PushShrinks(g, before, node);
      state, stack, found := state[node := 1], stack + [node], found + [node];
      VisitDependencies(node);
      UpToSound(g, Pushed(before, node), node, |g.deps[node]|);
      PopLater(g, before, View(), node);
      RestoresStack(before, View(), node);
      stack, state, finished := stack[..|stack| - 1], state[node := 2], finished + [node];
    }

    method VisitDependencies(node: string)
      requires Sound(g, View()) && stack != [] && stack[|stack| - 1] == node && node in g.deps
      modifies this
      ensures View() == VisitedUpTo(g, old(View()), node, |g.deps[node]|)
      decreases |White(g, View())|, 2
    {
      hide Sound, White, Visited;
      var deps := g.deps[node];
      ghost var before := View();
      for i := 0 to |deps|
        invariant View() == VisitedUpTo(g, before, node, i)
      {
        UpToSound(g, before, node, i);
        if deps[i] in g.deps {
          assert Edge(g, node, deps[i]);
          LaterShrinks(g, before, View());
          Visit(deps[i]);
        }
      }
    }

    /** Visits every node not reached yet, in order. */
    method Run()
      requires GraphValid(g) && View() == UNMARKED
      modifies this
      ensures View() == Swept(g, |g.nodes|)
    {
      hide Sound, Visited;
      for i := 0 to |g.nodes|
        invariant View() == Swept(g, i)
      {
        SweepSound(g, i);
        if g.nodes[i] !in state {
          Visit(g.nodes[i]);
        }
      }
    }
  }

  lemma RestoresStack(m: Marks, p: Marks, node: string)
    requires Later(Pushed(m, node), p)
    ensures p.stack != [] && p.stack[..|p.stack| - 1] == m.stack
  {
  }

  lemma SmallerOrEqual(a: set<string>, b: set<string>)
    requires a <= b
    ensures |a| <= |b|
  {
    assert b == a + (b - a);
  }

  lemma ClosesWalk(g: Graph, stack: seq<string>, start: nat, node: string)
    requires Walk(g, stack) && start < |stack| && stack[start] == node && Edge(g, stack[|stack| - 1], node)
    ensures ClosedWalk(g, stack[start..] + [node])
  {
    var w := stack[start..] + [node];
    forall i | 0 <= i < |w| - 1
      ensures Edge(g, w[i], w[i + 1])
    {
      if i < |w| - 2 {
        assert w[i] == stack[start + i] && w[i + 1] == stack[start + i + 1];
      } else {
        assert w[i] == stack[|stack| - 1] && w[i + 1] == node;
      }
    }
  }

  /**
   Terminates on every finite graph; every list it returns is a closed walk along dependencies, every
   closed walk contains a dependency that ends a returned list, and it returns none exactly when there is
   no closed walk.
   */
  method FindDependencyCycles(g: Graph) returns (cycles: seq<seq<string>>)
    requires GraphValid(g)
    ensures cycles == Cycles(g)
    ensures forall i :: 0 <= i < |cycles| ==> ClosedWalk(g, cycles[i])
    ensures forall w :: ClosedWalk(g, w) ==> exists i :: 0 <= i < |w| - 1 && ClosedBy(cycles, w[i], w[i + 1])
    ensures cycles == [] <==> Acyclic(g)
  {
    hide ClosedWalk, Acyclic, Swept, ClosedBy;
    CyclesExact(g);
    var search := new Search(g);
    search.Run();
    cycles := search.cycles;
  }
}
