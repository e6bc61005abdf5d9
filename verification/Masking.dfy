/**
 Blanking spans of a source text while keeping its shape, and merging spans
 first (scripts/guard_layer_policy.py).
 */
module Masking {
  import Sorting

  predicate IsLineBreak(c: char) {
    c == '\r' || c == '\n'
  }

  function Blank(c: char): char {
    if IsLineBreak(c) then c else ' '
  }

  function Masked(s: string): (r: string)
    ensures |r| == |s| && forall i :: 0 <= i < |s| ==> r[i] == Blank(s[i])
  {
    seq(|s|, i requires 0 <= i < |s| => Blank(s[i]))
  }

  datatype Span = Span(start: nat, end: nat)

  predicate Covers(spans: seq<Span>, i: int) {
    exists k :: 0 <= k < |spans| && spans[k].start <= i < spans[k].end
  }

  /** The text with exactly the covered positions blanked. */
  function MaskWhere(s: string, spans: seq<Span>): (r: string)
    ensures |r| == |s|
    ensures forall i :: 0 <= i < |s| ==> r[i] == if Covers(spans, i) then Blank(s[i]) else s[i]
  {
    seq(|s|, i requires 0 <= i < |s| => if Covers(spans, i) then Blank(s[i]) else s[i])
  }

  /** Masking keeps the length and every line break, and changes nothing outside the spans. */
  lemma MaskKeepsShape(s: string, spans: seq<Span>)
    ensures |MaskWhere(s, spans)| == |s|
    ensures forall i :: 0 <= i < |s| ==> (IsLineBreak(MaskWhere(s, spans)[i]) <==> IsLineBreak(s[i]))
    ensures forall i :: 0 <= i < |s| && IsLineBreak(s[i]) ==> MaskWhere(s, spans)[i] == s[i]
    ensures forall i :: 0 <= i < |s| && !Covers(spans, i) ==> MaskWhere(s, spans)[i] == s[i]
    ensures MaskWhere(MaskWhere(s, spans), spans) == MaskWhere(s, spans)
  {
  }

  // ===== Searching

  predicate At(s: string, i: nat, token: string) {
    i + |token| <= |s| && s[i..i + |token|] == token
  }

  method Find(s: string, token: string, from: nat) returns (r: int)
    requires token != ""
    ensures r == -1 || (from <= r && At(s, r, token))
    ensures forall k :: from <= k && (r == -1 || k < r) ==> !At(s, k, token)
  {
    var i := from;
    while i + |token| <= |s|
      invariant from <= i && forall k :: from <= k < i ==> !At(s, k, token)
    {
      if s[i..i + |token|] == token {
        return i;
      }
      i := i + 1;
    }
    r := -1;
  }

  // ===== Masking ordered spans piece by piece

  predicate Ordered(spans: seq<Span>, limit: nat) {
    && (forall k :: 0 <= k < |spans| ==> spans[k].start <= spans[k].end <= limit)
    && (forall k, m :: 0 <= k < m < |spans| ==> spans[k].end <= spans[m].start)
  }

  predicate EndsBy(spans: seq<Span>, limit: nat) {
    forall k :: 0 <= k < |spans| ==> spans[k].end <= limit
  }

  /** One span more: what lies before it is copied, what lies inside it is blanked. */
  lemma MaskOneMore(s: string, done: seq<Span>, x: Span, emitted: nat)
    requires EndsBy(done, emitted) && emitted <= x.start <= x.end <= |s|
    ensures MaskWhere(s, done + [x])[..x.end]
         == MaskWhere(s, done)[..emitted] + s[emitted..x.start] + Masked(s[x.start..x.end])
  {
    hide Covers;
    CoverAppended(done, x);
    NotCovered(done, emitted);
    var before, after := MaskWhere(s, done), MaskWhere(s, done + [x]);
    assert after[..x.end] == after[..emitted] + after[emitted..x.start] + after[x.start..x.end];
    assert after[..emitted] == before[..emitted];
    assert after[emitted..x.start] == s[emitted..x.start];
    assert after[x.start..x.end] == Masked(s[x.start..x.end]);
  }

  lemma NotCovered(spans: seq<Span>, from: nat)
    requires EndsBy(spans, from)
    ensures forall i :: from <= i ==> !Covers(spans, i)
  {
  }

  /** After the last span the text is copied. */
  lemma MaskRest(s: string, done: seq<Span>, emitted: nat)
    requires EndsBy(done, emitted) && emitted <= |s|
    ensures MaskWhere(s, done) == MaskWhere(s, done)[..emitted] + s[emitted..]
  {
    hide Covers;
    NotCovered(done, emitted);
  }

  /** Copies what lies between the spans and blanks what lies inside them. */
  method MaskSpans(s: string, spans: seq<Span>) returns (r: string)
    requires Ordered(spans, |s|)
    ensures r == MaskWhere(s, spans)
  {
    hide Covers;
    var pieces := "";
    var emitted := 0;
    for k := 0 to |spans|
      invariant 0 <= emitted <= |s| && (k < |spans| ==> emitted <= spans[k].start)
      invariant EndsBy(spans[..k], emitted) && pieces == MaskWhere(s, spans[..k])[..emitted]
    {
      var span := spans[k];
      MaskOneMore(s, spans[..k], span, emitted);
      assert spans[..k + 1] == spans[..k] + [span];
      pieces := pieces + s[emitted..span.start] + Masked(s[span.start..span.end]);
      emitted := span.end;
    }
    assert spans[..|spans|] == spans;
    MaskRest(s, spans, emitted);
    r := pieces + s[emitted..];
  }

  // ===== Sorting and merging

  predicate Before(a: Span, b: Span) {
    a.start < b.start || (a.start == b.start && a.end <= b.end)
  }

  function SortSpans(spans: seq<Span>): seq<Span> {
    Sorting.Sort(Before, spans)
  }

  predicate Ascending(spans: seq<Span>) {
    forall k, m :: 0 <= k < m < |spans| ==> spans[k].start <= spans[m].start
  }

  predicate Within(spans: seq<Span>, limit: nat) {
    forall k :: 0 <= k < |spans| ==> spans[k].start <= spans[k].end <= limit
  }

  lemma SortSorted(spans: seq<Span>)
    ensures Ascending(SortSpans(spans)) && multiset(SortSpans(spans)) == multiset(spans)
  {
    hide Sorting.Sort;
    Sorting.SortKeeps(Before, spans);
    Sorting.SortSorts(Before, spans);
    var r := SortSpans(spans);
    forall k, m | 0 <= k < m < |r|
      ensures r[k].start <= r[m].start
    {
      StartsAscend(r, k, m);
    }
  }

  lemma {:induction false} StartsAscend(r: seq<Span>, k: nat, m: nat)
    requires Sorting.Sorted(Before, r) && k < m < |r|
    ensures r[k].start <= r[m].start
  {
    assert Before(r[m - 1], r[m - 1 + 1]);
    if k < m - 1 {
      StartsAscend(r, k, m - 1);
    }
  }

  lemma CoverageOfMultiset(a: seq<Span>, b: seq<Span>, i: int)
    requires multiset(a) == multiset(b) && Covers(a, i)
    ensures Covers(b, i)
  {
    var k :| 0 <= k < |a| && a[k].start <= i < a[k].end;
    assert a[k] in multiset(b);
    var m :| 0 <= m < |b| && b[m] == a[k];
  }

  lemma SortedCoverage(spans: seq<Span>, limit: nat)
    requires Within(spans, limit)
    ensures Within(SortSpans(spans), limit)
    ensures forall i :: Covers(SortSpans(spans), i) <==> Covers(spans, i)
  {
    SortSorted(spans);
    forall k | 0 <= k < |SortSpans(spans)|
      ensures SortSpans(spans)[k].start <= SortSpans(spans)[k].end <= limit
    {
      assert SortSpans(spans)[k] in multiset(spans);
    }
    forall i
      ensures Covers(SortSpans(spans), i) <==> Covers(spans, i)
    {
      if Covers(spans, i) {
        CoverageOfMultiset(spans, SortSpans(spans), i);
      } else if Covers(SortSpans(spans), i) {
        CoverageOfMultiset(SortSpans(spans), spans, i);
      }
    }
  }

  function Max(a: nat, b: nat): nat {
    if a < b then b else a
  }

  /** Ascending spans with a gap between any two. */
  predicate Gapped(spans: seq<Span>, limit: nat) {
    Within(spans, limit) && forall k, m :: 0 <= k < m < |spans| ==> spans[k].end < spans[m].start
  }

  /** Adds a span that starts no earlier than the last one: stretches the last one if they touch, else appends. */
  function Join(merged: seq<Span>, x: Span): seq<Span> {
    if merged != [] && x.start <= merged[|merged| - 1].end then
      var last := merged[|merged| - 1];
      merged[..|merged| - 1] + [Span(last.start, Max(last.end, x.end))]
    else merged + [x]
  }

  predicate Follows(merged: seq<Span>, x: Span) {
    merged != [] ==> merged[|merged| - 1].start <= x.start
  }

  lemma JoinKeeps(merged: seq<Span>, x: Span, limit: nat)
    requires Gapped(merged, limit) && Follows(merged, x) && x.start <= x.end <= limit
    ensures Gapped(Join(merged, x), limit)
    ensures forall y: Span :: x.start <= y.start ==> Follows(Join(merged, x), y)
    ensures forall i :: Covers(Join(merged, x), i) <==> Covers(merged, i) || x.start <= i < x.end
  {
    hide Covers;
    if merged != [] && x.start <= merged[|merged| - 1].end {
      CoverExtended(merged, x);
    } else {
      CoverAppended(merged, x);
    }
  }

  /** Joins spans that touch or overlap. */
  method MergeSpans(spans: seq<Span>, limit: nat) returns (merged: seq<Span>)
    requires Ascending(spans) && Within(spans, limit)
    ensures Gapped(merged, limit) && Ordered(merged, limit)
    ensures forall i :: Covers(merged, i) <==> Covers(spans, i)
  {
    merged := [];
    for k := 0 to |spans|
      invariant Gapped(merged, limit)
      invariant k < |spans| ==> Follows(merged, spans[k])
      invariant forall i :: Covers(merged, i) <==> Covers(spans[..k], i)
    {
      hide Covers, Gapped;
      CoverOneMore(spans, k);
      JoinKeeps(merged, spans[k], limit);
      merged := Join(merged, spans[k]);
    }
    assert spans[..|spans|] == spans;
  }

  lemma CoverAppended(a: seq<Span>, x: Span)
    ensures forall i :: Covers(a + [x], i) <==> Covers(a, i) || x.start <= i < x.end
  {
    forall i
      ensures Covers(a + [x], i) <==> Covers(a, i) || x.start <= i < x.end
    {
      var b := a + [x];
      if Covers(a, i) {
        var k :| 0 <= k < |a| && a[k].start <= i < a[k].end;
        assert b[k] == a[k];
      } else if x.start <= i < x.end {
        assert b[|a|] == x;
      }
    }
  }

  lemma CoverOneMore(spans: seq<Span>, k: nat)
    requires k < |spans|
    ensures forall i :: Covers(spans[..k + 1], i) <==> Covers(spans[..k], i) || spans[k].start <= i < spans[k].end
  {
    assert spans[..k + 1] == spans[..k] + [spans[k]];
    CoverAppended(spans[..k], spans[k]);
  }

  /** Stretching the last span over one that starts inside it or right after it covers both and nothing else. */
  lemma CoverExtended(a: seq<Span>, x: Span)
    requires a != [] && a[|a| - 1].start <= x.start <= a[|a| - 1].end && x.start <= x.end
    ensures var last := a[|a| - 1]; var b := a[..|a| - 1] + [Span(last.start, Max(last.end, x.end))];
      forall i :: Covers(b, i) <==> Covers(a, i) || x.start <= i < x.end
  {
    var last := a[|a| - 1];
    assert a == a[..|a| - 1] + [last];
    CoverAppended(a[..|a| - 1], last);
    CoverAppended(a[..|a| - 1], Span(last.start, Max(last.end, x.end)));
  }

  /** Sorts, merges, masks: a position is blanked exactly when some span covers it. */
  method MaskAll(s: string, spans: seq<Span>) returns (r: string)
    requires Within(spans, |s|)
    ensures r == MaskWhere(s, spans)
  {
    SortSorted(spans);
    SortedCoverage(spans, |s|);
    var merged := MergeSpans(SortSpans(spans), |s|);
    r := MaskSpans(s, merged);
    assert r == MaskWhere(s, spans);
  }
}
