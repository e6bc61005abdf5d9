/**
 Blanking Rust comments and, on request, literals
 (scripts/guard_layer_policy.py).
 */
module RustMasking {
  import opened Masking

  datatype Kind = Comment | Literal
  datatype Region = Region(start: nat, end: nat, kind: Kind)

  /** What the scanner finds at a position: nothing, a quote that is code (a lifetime), or a region. */
  datatype Finding = Nothing | Quote | Found(end: nat, kind: Kind)

  // ===== Ends of regions

  /** The first position from `i` on at which `token` stands, or the length of the text. */
  function FirstAt(s: string, token: string, i: nat): (r: nat)
    ensures r <= |s| && (i <= |s| ==> i <= r) && (r < |s| ==> At(s, r, token))
    ensures forall k :: i <= k < r ==> !At(s, k, token)
    decreases |s| - i
  {
    if i >= |s| then |s| else if At(s, i, token) then i else FirstAt(s, token, i + 1)
  }

  lemma {:induction false} FirstAtIs(s: string, token: string, i: nat, r: nat)
    requires token != "" && i <= r <= |s| && (r < |s| ==> At(s, r, token)) && forall k :: i <= k < r ==> !At(s, k, token)
    ensures FirstAt(s, token, i) == r
    decreases |s| - i
  {
    if i < r {
      FirstAtIs(s, token, i + 1, r);
    }
  }

  method FindOrEnd(s: string, token: string, i: nat) returns (r: nat)
    requires token != ""
    ensures r == FirstAt(s, token, i)
  {
    var found := Find(s, token, i);
    if i >= |s| {
      return |s|;
    }
    r := if found < 0 then |s| else found;
    FirstAtIs(s, token, i, r);
  }

  /** Past the quote that closes a string; a backslash hides the character after it. */
  function QuotedEnd(s: string, i: nat): (r: nat)
    ensures r <= |s| && (i <= |s| ==> i <= r)
    decreases |s| - i
  {
    if i >= |s| then |s|
    else if s[i] == '\\' then QuotedEnd(s, i + 2)
    else if s[i] == '"' then i + 1
    else QuotedEnd(s, i + 1)
  }

  /** Past the delimiter that closes the outermost of `depth` nested comments. */
  function BlockEnd(s: string, i: nat, depth: nat): (r: nat)
    ensures r <= |s| && (i <= |s| ==> i <= r)
    decreases |s| - i
  {
    if depth == 0 then (if i <= |s| then i else |s|)
    else if i >= |s| then |s|
    else if At(s, i, "/*") then BlockEnd(s, i + 2, depth + 1)
    else if At(s, i, "*/") then BlockEnd(s, i + 2, depth - 1)
    else BlockEnd(s, i + 1, depth)
  }

  /** How many backslashes stand directly before `q`, looking back no further than `i`. */
  function BackslashesBefore(s: string, i: nat, q: nat): nat
    requires q <= |s|
  {
    if i < q && s[q - 1] == '\\' then 1 + BackslashesBefore(s, i, q - 1) else 0
  }

  /** A quote that nothing escapes. */
  predicate Closing(s: string, i: nat, q: nat) {
    i <= q < |s| && s[q] == '"' && BackslashesBefore(s, i, q) % 2 == 0
  }

  lemma {:induction false} LookBackPastEscape(s: string, i: nat, q: nat)
    requires i + 2 <= q <= |s| && s[i] == '\\'
    ensures BackslashesBefore(s, i, q) % 2 == BackslashesBefore(s, i + 2, q) % 2
  {
    if q == i + 2 {
      assert BackslashesBefore(s, i, i + 1) == 1;
    } else if s[q - 1] == '\\' {
      LookBackPastEscape(s, i, q - 1);
    }
  }

  lemma {:induction false} LookBackPastPlain(s: string, i: nat, q: nat)
    requires i + 1 <= q <= |s| && s[i] != '\\'
    ensures BackslashesBefore(s, i, q) == BackslashesBefore(s, i + 1, q)
  {
    if q > i + 1 && s[q - 1] == '\\' {
      LookBackPastPlain(s, i, q - 1);
    }
  }

  /** A string ends at the first quote with an even number of backslashes before it, or with the text. */
  lemma {:induction false} QuotedEndExact(s: string, i: nat)
    requires i <= |s|
    ensures var r := QuotedEnd(s, i);
      || (r == |s| && forall j :: i <= j < |s| ==> !Closing(s, i, j))
      || (i < r && Closing(s, i, r - 1) && forall j :: i <= j < r - 1 ==> !Closing(s, i, j))
    decreases |s| - i
  {
    if i < |s| && s[i] != '"' {
      var next := if s[i] == '\\' then i + 2 else i + 1;
      if next <= |s| {
        QuotedEndExact(s, next);
      }
      forall j | i <= j < |s|
        ensures Closing(s, i, j) <==> next <= j && Closing(s, next, j)
      {
        if next <= j {
          if s[i] == '\\' {
            LookBackPastEscape(s, i, j);
          } else {
            LookBackPastPlain(s, i, j);
          }
        } else if j == i + 1 {
          assert BackslashesBefore(s, i, i + 1) == 1 + BackslashesBefore(s, i, i);
        }
      }
    }
  }

  // Comment delimiters, read from left to right without overlapping.

  datatype Delimiter = Delimiter(at: nat, opens: bool)

  function Delimiters(s: string, i: nat): seq<Delimiter>
    decreases |s| - i
  {
    if i >= |s| then []
    else if At(s, i, "/*") then [Delimiter(i, true)] + Delimiters(s, i + 2)
    else if At(s, i, "*/") then [Delimiter(i, false)] + Delimiters(s, i + 2)
    else Delimiters(s, i + 1)
  }

  predicate Stands(s: string, d: Delimiter) {
    if d.opens then At(s, d.at, "/*") else At(s, d.at, "*/")
  }

  predicate InOrder(ds: seq<Delimiter>, i: nat) {
    (forall j :: 0 <= j < |ds| ==> i <= ds[j].at) && forall j, k :: 0 <= j < k < |ds| ==> ds[j].at + 2 <= ds[k].at
  }

  /** Each stands where it is said to stand, past the end of the ones before it. */
  lemma {:induction false} DelimitersStand(s: string, i: nat)
    ensures InOrder(Delimiters(s, i), i) && forall j :: 0 <= j < |Delimiters(s, i)| ==> Stands(s, Delimiters(s, i)[j])
    decreases |s| - i
  {
    hide At;
    if i < |s| {
      DelimitersStand(s, if At(s, i, "/*") || At(s, i, "*/") then i + 2 else i + 1);
    }
  }

  /** A delimiter anywhere in the text is among them, or overlaps the one just before it. */
  lemma {:induction false} DelimitersCover(s: string, i: nat, k: nat) returns (j: nat)
    requires i <= k < |s| && (At(s, k, "/*") || At(s, k, "*/"))
    ensures j < |Delimiters(s, i)| && (Delimiters(s, i)[j].at == k || Delimiters(s, i)[j].at + 1 == k)
    decreases |s| - i
  {
    hide At;
    if At(s, i, "/*") || At(s, i, "*/") {
      if k < i + 2 {
        return 0;
      }
      j := DelimitersCover(s, i + 2, k);
      j := j + 1;
    } else {
      j := DelimitersCover(s, i + 1, k);
    }
  }

  /** How many comments are open after a list of delimiters. */
  function Depth(ds: seq<Delimiter>, depth: int): int {
    if ds == [] then depth
    else Depth(ds[..|ds| - 1], depth) + if ds[|ds| - 1].opens then 1 else -1
  }

  lemma {:induction false} DepthPrepended(d: Delimiter, ds: seq<Delimiter>, depth: int)
    ensures Depth([d] + ds, depth) == Depth(ds, depth + if d.opens then 1 else -1)
  {
    if ds == [] {
      assert [d] + ds == [d] && [d][..0] == [];
    } else {
      var all := [d] + ds;
      assert all[..|all| - 1] == [d] + ds[..|ds| - 1] && all[|all| - 1] == ds[|ds| - 1];
      DepthPrepended(d, ds[..|ds| - 1], depth);
    }
  }

  /** The comment ends with the `n`th of these delimiters: the first after which none is open. */
  predicate ClosesAt(ds: seq<Delimiter>, depth: nat, n: nat) {
    0 < n <= |ds| && Depth(ds[..n], depth) == 0 && forall j :: 0 <= j < n ==> Depth(ds[..j], depth) > 0
  }

  predicate NeverCloses(ds: seq<Delimiter>, depth: nat) {
    forall j :: 0 <= j <= |ds| ==> Depth(ds[..j], depth) > 0
  }

  /** What one delimiter in front changes. */
  lemma OneMoreDelimiter(d: Delimiter, rest: seq<Delimiter>, depth: nat, next: nat, n: nat)
    requires depth > 0 && next == if d.opens then depth + 1 else depth - 1
    ensures next == 0 ==> ClosesAt([d] + rest, depth, 1)
    ensures next > 0 && ClosesAt(rest, next, n) ==> ClosesAt([d] + rest, depth, n + 1)
    ensures next > 0 && NeverCloses(rest, next) ==> NeverCloses([d] + rest, depth)
  {
    var all := [d] + rest;
    assert all[..0] == [] && rest[..0] == [];
    forall j | 0 < j <= |all|
      ensures Depth(all[..j], depth) == Depth(rest[..j - 1], next)
    {
      assert all[..j] == [d] + rest[..j - 1];
      DepthPrepended(d, rest[..j - 1], depth);
    }
  }

  /** A block comment ends past the first delimiter that leaves none open, or with the text. */
  lemma {:induction false} BlockEndExact(s: string, i: nat, depth: nat) returns (n: nat)
    requires i <= |s| && depth > 0
    ensures var ds := Delimiters(s, i); var r := BlockEnd(s, i, depth);
      (ClosesAt(ds, depth, n) && r == ds[n - 1].at + 2) || (NeverCloses(ds, depth) && r == |s|)
    decreases |s| - i
  {
    hide At;
    n := 0;
    if i == |s| {
      assert Delimiters(s, i)[..0] == [];
    } else if At(s, i, "/*") || At(s, i, "*/") {
      hide Depth, ClosesAt, NeverCloses;
      var d := Delimiter(i, At(s, i, "/*"));
      var next := if d.opens then depth + 1 else depth - 1;
      DelimiterFits(s, d);
      if next > 0 {
        n := BlockEndExact(s, i + 2, next);
        InRange(Delimiters(s, i + 2), next, n);
      }
      OneMoreDelimiter(d, Delimiters(s, i + 2), depth, next, n);
      n := n + 1;
    } else {
      n := BlockEndExact(s, i + 1, depth);
    }
  }

  lemma DelimiterFits(s: string, d: Delimiter)
    requires At(s, d.at, if d.opens then "/*" else "*/")
    ensures d.at + 2 <= |s|
  {
  }

  lemma InRange(ds: seq<Delimiter>, depth: nat, n: nat)
    ensures ClosesAt(ds, depth, n) ==> 0 < n <= |ds|
  {
  }

  function HashRun(s: string, i: nat): nat
    decreases |s| - i
  {
    if i < |s| && s[i] == '#' then 1 + HashRun(s, i + 1) else 0
  }

  function Hashes(n: nat): (r: string)
    ensures |r| == n
  {
    seq(n, i => '#')
  }

  predicate IsWord(c: char) {
    'A' <= c <= 'Z' || 'a' <= c <= 'z' || '0' <= c <= '9' || c == '_'
  }

  predicate AfterWord(s: string, p: nat)
    requires p <= |s|
  {
    p > 0 && IsWord(s[p - 1])
  }

  function RawPrefix(s: string, p: nat): nat {
    if At(s, p, "br") || At(s, p, "rb") || At(s, p, "cr") || At(s, p, "rc") then 2 else if At(s, p, "r") then 1 else 0
  }

  /** A raw string opens at `p`: a prefix not part of a word, at most 255 hashes, a quote. */
  predicate RawOpens(s: string, p: nat)
    requires p < |s|
  {
    var l := RawPrefix(s, p);
    var q := p + l + HashRun(s, p + l);
    !AfterWord(s, p) && l > 0 && HashRun(s, p + l) <= 255 && q < |s| && s[q] == '"'
  }

  /** Past the quote and hashes that close a raw string opened at `p`. */
  function RawEnd(s: string, p: nat): (r: nat)
    requires p < |s| && RawOpens(s, p)
    ensures p < r <= |s|
  {
    var l := RawPrefix(s, p);
    var n := HashRun(s, p + l);
    var close := FirstAt(s, "\"" + Hashes(n), p + l + n + 1);
    if close < |s| then close + 1 + n else |s|
  }

  /** Past a character literal opened at `quote`, or nothing when the quote starts a lifetime. */
  function CharEnd(s: string, quote: nat): (r: int)
    requires quote < |s|
    ensures r == -1 || quote < r <= |s|
  {
    var i := quote + 1;
    if i >= |s| || IsLineBreak(s[i]) then -1
    else
      var close :=
        if s[i] != '\\' then i + 1
        else if i + 1 >= |s| then -1
        else if At(s, i + 1, "u{") then
          var brace := FirstAt(s, "}", i + 3);
          if brace >= |s| || FirstAt(s, "\n", i + 1) < brace then -1 else brace + 1
        else if s[i + 1] == 'x' then i + 4
        else i + 2;
      if 0 <= close < |s| && close > quote && s[close] == '\'' then close + 1 else -1
  }

  // ===== Regions

  function FindingAt(s: string, p: nat): (f: Finding)
    requires p < |s|
    ensures f.Found? ==> p < f.end <= |s|
  {
    if At(s, p, "//") then Found(FirstAt(s, "\n", p + 2), Comment)
    else if At(s, p, "/*") then Found(BlockEnd(s, p + 2, 1), Comment)
    else if RawOpens(s, p) then Found(RawEnd(s, p), Literal)
    else if !AfterWord(s, p) && At(s, p, "b\"") then Found(QuotedEnd(s, p + 2), Literal)
    else if s[p] == '"' then Found(QuotedEnd(s, p + 1), Literal)
    else if s[p] == '\'' then (if CharEnd(s, p) >= 0 then Found(CharEnd(s, p), Literal) else Quote)
    else Nothing
  }

  /** Every comment and literal from `scan` on, in order. */
  function Regions(s: string, scan: nat): seq<Region>
    decreases |s| - scan
  {
    if scan >= |s| then []
    else
      match FindingAt(s, scan)
      case Found(end, kind) => [Region(scan, end, kind)] + Regions(s, end)
      case _ => Regions(s, scan + 1)
  }

  function SpansOf(regions: seq<Region>, literals: bool): seq<Span> {
    if regions == [] then []
    else (if regions[0].kind == Comment || literals then [Span(regions[0].start, regions[0].end)] else [])
         + SpansOf(regions[1..], literals)
  }

  /** The text with its comments, and with `literals` its literals too, blanked. */
  function Sanitized(s: string, literals: bool): string {
    MaskWhere(s, SpansOf(Regions(s, 0), literals))
  }

  predicate Apart(s: string, regions: seq<Region>, scan: nat) {
    && (forall k :: 0 <= k < |regions| ==> scan <= regions[k].start < regions[k].end <= |s|)
    && (forall k, m :: 0 <= k < m < |regions| ==> regions[k].end <= regions[m].start)
  }

  /** Regions follow one another without overlapping. */
  lemma {:induction false} RegionsApart(s: string, scan: nat)
    ensures Apart(s, Regions(s, scan), scan)
    decreases |s| - scan
  {
    if scan < |s| {
      hide FindingAt;
      match FindingAt(s, scan)
      case Found(end, kind) => RegionsApart(s, end);
      case _ => RegionsApart(s, scan + 1);
    }
  }

  // ===== What a region is, in terms of the text

  lemma {:induction false} RegionFound(s: string, scan: nat, k: nat)
    requires k < |Regions(s, scan)|
    ensures var r := Regions(s, scan)[k]; r.start < |s| && FindingAt(s, r.start) == Found(r.end, r.kind)
    decreases |s| - scan
  {
    hide FindingAt;
    match FindingAt(s, scan)
    case Found(end, kind) =>
      if k > 0 {
        RegionFound(s, end, k - 1);
      }
    case _ => RegionFound(s, scan + 1, k);
  }

  predicate CommentOpens(s: string, p: nat) {
    At(s, p, "//") || At(s, p, "/*")
  }

  /** A quote, an apostrophe, or a prefix with its hashes and then a quote. */
  predicate LiteralOpens(s: string, p: nat)
    requires p < |s|
  {
    || s[p] == '"' || s[p] == '\'' || At(s, p, "b\"")
    || (exists n: nat, q :: StringPrefix(s, p, n) && p + n <= q < |s| && s[q] == '"' && forall j :: p + n <= j < q ==> s[j] == '#')
  }

  predicate StringPrefix(s: string, p: nat, n: nat) {
    || (n == 1 && At(s, p, "r"))
    || (n == 2 && (At(s, p, "br") || At(s, p, "rb") || At(s, p, "cr") || At(s, p, "rc")))
  }

  lemma {:induction false} HashRunIs(s: string, i: nat)
    requires i <= |s|
    ensures i + HashRun(s, i) <= |s| && forall j :: i <= j < i + HashRun(s, i) ==> s[j] == '#'
    decreases |s| - i
  {
    if i < |s| && s[i] == '#' {
      HashRunIs(s, i + 1);
    }
  }

  lemma RawOpensText(s: string, p: nat)
    requires p < |s| && RawOpens(s, p)
    ensures LiteralOpens(s, p)
  {
    var n := RawPrefix(s, p);
    HashRunIs(s, p + n);
    var q := p + n + HashRun(s, p + n);
    assert StringPrefix(s, p, n) && s[q] == '"';
  }

  /** A region is a comment exactly when a comment delimiter opens it, and a literal only when a literal opens it. */
  lemma RegionKinds(s: string, k: nat)
    requires k < |Regions(s, 0)|
    ensures var r := Regions(s, 0)[k]; r.start < |s| && (r.kind == Comment <==> CommentOpens(s, r.start))
    ensures var r := Regions(s, 0)[k]; r.kind == Literal ==> LiteralOpens(s, r.start)
  {
    hide Regions, RawOpens, At, LiteralOpens, CharEnd, BlockEnd, QuotedEnd;
    RegionFound(s, 0, k);
    var p := Regions(s, 0)[k].start;
    if RawOpens(s, p) {
      RawOpensText(s, p);
    }
    QuoteOpens(s, p);
  }

  lemma QuoteOpens(s: string, p: nat)
    requires p < |s|
    ensures s[p] == '"' || s[p] == '\'' || At(s, p, "b\"") ==> LiteralOpens(s, p)
  {
  }

  /** Where a region ends: a line comment at the line's end, a block comment at its last delimiter, a string at its quote. */
  lemma RegionEnds(s: string, k: nat)
    requires k < |Regions(s, 0)|
    ensures var r := Regions(s, 0)[k];
      && r.start < r.end <= |s|
      && (At(s, r.start, "//") ==> (r.end < |s| ==> At(s, r.end, "\n")) && forall j :: r.start + 2 <= j < r.end ==> !At(s, j, "\n"))
      && (At(s, r.start, "/*") && !At(s, r.start, "//") ==> r.end == BlockEnd(s, r.start + 2, 1))
      && (s[r.start] == '"' ==> r.end == QuotedEnd(s, r.start + 1))
  {
    hide Regions, CharEnd, BlockEnd, QuotedEnd;
    RegionFound(s, 0, k);
    var p := Regions(s, 0)[k].start;
    QuoteIsNot(s, p);
  }

  lemma QuoteIsNot(s: string, p: nat)
    requires p < |s|
    ensures s[p] == '"' ==> !At(s, p, "//") && !At(s, p, "/*") && !RawOpens(s, p) && !At(s, p, "b\"")
  {
    hide At;
    AtFirst(s, p, "//");
    AtFirst(s, p, "/*");
    AtFirst(s, p, "b\"");
    AtFirst(s, p, "r");
    AtFirst(s, p, "br");
    AtFirst(s, p, "rb");
    AtFirst(s, p, "cr");
    AtFirst(s, p, "rc");
  }

  lemma AtFirst(s: string, p: nat, token: string)
    requires token != ""
    ensures At(s, p, token) ==> p < |s| && s[p] == token[0]
  {
    if At(s, p, token) {
      assert s[p..p + |token|][0] == s[p];
    }
  }

  /** No position is passed over: outside all regions no comment and no plain string opens. */
  lemma {:induction false} OutsideIsCode(s: string, scan: nat, i: nat)
    requires scan <= i < |s| && forall k :: 0 <= k < |Regions(s, scan)| ==> !(Regions(s, scan)[k].start <= i < Regions(s, scan)[k].end)
    ensures !CommentOpens(s, i) && s[i] != '"' && !FindingAt(s, i).Found?
    decreases |s| - scan
  {
    hide At, RawOpens, CharEnd, BlockEnd, QuotedEnd;
    match FindingAt(s, scan)
    case Found(end, kind) =>
      hide FindingAt;
      var rest := Regions(s, end);
      var all := Regions(s, scan);
      assert all == [Region(scan, end, kind)] + rest;
      assert !(all[0].start <= i < all[0].end);
      forall k | 0 <= k < |rest|
        ensures !(rest[k].start <= i < rest[k].end)
      {
        assert all[k + 1] == rest[k];
      }
      OutsideIsCode(s, end, i);
    case _ =>
      if scan < i {
        assert Regions(s, scan) == Regions(s, scan + 1);
        hide FindingAt;
        OutsideIsCode(s, scan + 1, i);
      } else {
        QuoteIsNot(s, i);
      }
  }

  /** Character literals as Rust writes them, and a lifetime. */
  lemma CharExamples()
    ensures CharEnd("'a'", 0) == 3 && CharEnd("'\\n'", 0) == 4 && CharEnd("'\\x41'", 0) == 6 && CharEnd("'a>", 0) == -1
  {
    assert "'\\n'"[2..4] == "n'" && "'\\x41'"[2..4] == "x4";
    assert !At("'\\n'", 2, "u{") by { AtFirst("'\\n'", 2, "u{"); }
    assert !At("'\\x41'", 2, "u{") by { AtFirst("'\\x41'", 2, "u{"); }
  }

  /** A quote followed by `n` hashes. */
  predicate RawCloses(s: string, j: nat, n: nat) {
    j + n < |s| && s[j] == '"' && forall h :: j < h <= j + n ==> s[h] == '#'
  }

  lemma TokenCloses(s: string, j: nat, n: nat)
    ensures At(s, j, "\"" + Hashes(n)) <==> RawCloses(s, j, n)
  {
    var token := "\"" + Hashes(n);
    if j + 1 + n <= |s| {
      var piece := s[j..j + 1 + n];
      assert forall h :: 0 <= h <= n ==> piece[h] == s[j + h];
      assert forall h :: 0 < h <= n ==> token[h] == '#';
      if RawCloses(s, j, n) {
        assert forall h :: 0 <= h < |token| ==> piece[h] == token[h];
      }
      assert forall h :: j < h <= j + n ==> s[h] == piece[h - j];
    }
  }

  /** A raw string ends past the first quote followed by as many hashes as opened it, or with the text. */
  lemma RawEndExact(s: string, p: nat)
    requires p < |s| && RawOpens(s, p)
    ensures var n := HashRun(s, p + RawPrefix(s, p)); var q := p + RawPrefix(s, p) + n; var r := RawEnd(s, p);
      || (r == |s| && forall j :: q < j < |s| ==> !RawCloses(s, j, n))
      || (q + 1 + n < r && RawCloses(s, r - 1 - n, n) && forall j :: q < j < r - 1 - n ==> !RawCloses(s, j, n))
  {
    hide At, RawCloses, RawPrefix;
    var n := HashRun(s, p + RawPrefix(s, p));
    forall j: nat
      ensures At(s, j, "\"" + Hashes(n)) <==> RawCloses(s, j, n)
    {
      TokenCloses(s, j, n);
    }
  }

  // ===== The scanner

  method SkipQuoted(s: string, i: nat) returns (end: nat)
    ensures end == QuotedEnd(s, i)
  {
    var index := i;
    while index < |s|
      invariant QuotedEnd(s, index) == QuotedEnd(s, i)
      decreases |s| - index
    {
      if s[index] == '\\' {
        index := index + 2;
        continue;
      }
      if s[index] == '"' {
        return index + 1;
      }
      index := index + 1;
    }
    end := |s|;
  }

  /** Follows nested comments from delimiter to delimiter. */
  method SkipBlock(s: string, i: nat) returns (end: nat)
    requires i <= |s|
    ensures end == BlockEnd(s, i, 1)
  {
    var depth := 1;
    end := i;
    while depth > 0 && end < |s|
      invariant end <= |s| && BlockEnd(s, end, depth) == BlockEnd(s, i, 1)
      decreases |s| - end
    {
      if At(s, end, "/*") {
        depth := depth + 1;
        end := end + 2;
      } else if At(s, end, "*/") {
        depth := depth - 1;
        end := end + 2;
      } else {
        end := end + 1;
      }
    }
  }

  method CountHashes(s: string, i: nat) returns (n: nat)
    ensures n == HashRun(s, i)
  {
    n := 0;
    while i + n < |s| && s[i + n] == '#'
      invariant n + HashRun(s, i + n) == HashRun(s, i)
      decreases |s| - (i + n)
    {
      n := n + 1;
    }
  }

  method SkipRaw(s: string, p: nat) returns (end: nat)
    requires p < |s| && RawOpens(s, p)
    ensures end == RawEnd(s, p)
  {
    var index := p + RawPrefix(s, p);
    var hashes := CountHashes(s, index);
    var found := FindOrEnd(s, "\"" + Hashes(hashes), index + hashes + 1);
    end := if found < |s| then found + 1 + hashes else |s|;
  }

  /** Computes what stands at a position. */
  method Inspect(s: string, p: nat) returns (f: Finding)
    requires p < |s|
    ensures f == FindingAt(s, p)
  {
    hide FirstAt, QuotedEnd, BlockEnd, RawOpens, RawEnd, CharEnd, AfterWord;
    if At(s, p, "//") {
      var end := FindOrEnd(s, "\n", p + 2);
      f := Found(end, Comment);
    } else if At(s, p, "/*") {
      var end := SkipBlock(s, p + 2);
      f := Found(end, Comment);
    } else if RawOpens(s, p) {
      var end := SkipRaw(s, p);
      f := Found(end, Literal);
    } else if !AfterWord(s, p) && At(s, p, "b\"") {
      var end := SkipQuoted(s, p + 2);
      f := Found(end, Literal);
    } else if s[p] == '"' {
      var end := SkipQuoted(s, p + 1);
      f := Found(end, Literal);
    } else if s[p] == '\'' {
      f := if CharEnd(s, p) >= 0 then Found(CharEnd(s, p), Literal) else Quote;
    } else {
      f := Nothing;
    }
  }

  /** Copies code, blanks comments, and blanks literals on request, region by region. */
  method SanitizeRust(s: string, literals: bool) returns (r: string)
    ensures r == Sanitized(s, literals)
  {
    hide FindingAt;
    var pieces := "";
    var emitted, scan := 0, 0;
    ghost var done: seq<Span> := [];
    while scan < |s|
      invariant 0 <= emitted <= scan <= |s| && EndsBy(done, emitted) && pieces == MaskWhere(s, done)[..emitted]
      invariant SpansOf(Regions(s, 0), literals) == done + SpansOf(Regions(s, scan), literals)
      decreases |s| - scan
    {
      var f := Inspect(s, scan);
      if f.Found? {
        SpansStep(s, scan, literals);
        if f.kind == Comment || literals {
          MaskOneMore(s, done, Span(scan, f.end), emitted);
          done := done + [Span(scan, f.end)];
          pieces := pieces + s[emitted..scan] + Masked(s[scan..f.end]);
          emitted := f.end;
        }
        scan := f.end;
      } else {
        scan := scan + 1;
      }
    }
    assert done + [] == done;
    MaskRest(s, done, emitted);
    r := pieces + s[emitted..];
  }

  lemma SpansStep(s: string, scan: nat, literals: bool)
    requires scan < |s| && FindingAt(s, scan).Found?
    ensures var f := FindingAt(s, scan);
      SpansOf(Regions(s, scan), literals)
        == (if f.kind == Comment || literals then [Span(scan, f.end)] else []) + SpansOf(Regions(s, f.end), literals)
  {
    hide FindingAt;
    var f := FindingAt(s, scan);
    var rest := Regions(s, f.end);
    assert ([Region(scan, f.end, f.kind)] + rest)[1..] == rest;
  }

  // ===== What masking keeps

  predicate Inside(regions: seq<Region>, kind: Kind, i: int) {
    exists k :: 0 <= k < |regions| && regions[k].kind == kind && regions[k].start <= i < regions[k].end
  }

  lemma {:induction false} SpansCover(regions: seq<Region>, literals: bool, i: int)
    ensures Covers(SpansOf(regions, literals), i) <==> Inside(regions, Comment, i) || (literals && Inside(regions, Literal, i))
  {
    if regions != [] {
      var r, rest := regions[0], regions[1..];
      SpansCover(rest, literals, i);
      InsideStep(regions, Comment, i);
      InsideStep(regions, Literal, i);
      if r.kind == Comment || literals {
        CoverPrepended(Span(r.start, r.end), SpansOf(rest, literals), i);
      } else {
        assert [] + SpansOf(rest, literals) == SpansOf(rest, literals);
      }
    }
  }

  lemma CoverPrepended(x: Span, spans: seq<Span>, i: int)
    ensures Covers([x] + spans, i) <==> x.start <= i < x.end || Covers(spans, i)
  {
    var all := [x] + spans;
    if Covers(spans, i) {
      var k :| 0 <= k < |spans| && spans[k].start <= i < spans[k].end;
      assert all[k + 1] == spans[k];
    } else if x.start <= i < x.end {
      assert all[0] == x;
    }
  }

  lemma InsideStep(regions: seq<Region>, kind: Kind, i: int)
    requires regions != []
    ensures Inside(regions, kind, i) <==>
      (regions[0].kind == kind && regions[0].start <= i < regions[0].end) || Inside(regions[1..], kind, i)
  {
    if Inside(regions[1..], kind, i) {
      var k :| 0 <= k < |regions[1..]| && regions[1..][k].kind == kind && regions[1..][k].start <= i < regions[1..][k].end;
      assert regions[k + 1] == regions[1..][k];
    }
  }

  /** Length and line breaks stay; outside comments, and literals when they are asked for, nothing changes. */
  lemma SanitizedKeepsShape(s: string, literals: bool, i: nat)
    requires i < |s|
    ensures |Sanitized(s, literals)| == |s|
    ensures IsLineBreak(s[i]) ==> Sanitized(s, literals)[i] == s[i]
    ensures IsLineBreak(Sanitized(s, literals)[i]) ==> IsLineBreak(s[i])
    ensures Inside(Regions(s, 0), Comment, i) ==> Sanitized(s, literals)[i] == Blank(s[i])
    ensures !Inside(Regions(s, 0), Comment, i) && !Inside(Regions(s, 0), Literal, i) ==> Sanitized(s, literals)[i] == s[i]
  {
    hide Regions;
    SpansCover(Regions(s, 0), literals, i);
  }

  /** A position lies in a comment or in a literal, never in both. */
  lemma NotBoth(s: string, i: nat)
    ensures !(Inside(Regions(s, 0), Comment, i) && Inside(Regions(s, 0), Literal, i))
  {
    hide Regions;
    RegionsApart(s, 0);
  }

  /** Text that a quote opens is only blanked on request, and text that a comment delimiter opens always. */
  lemma TextDecides(s: string, k: nat, i: nat)
    requires k < |Regions(s, 0)| && Regions(s, 0)[k].start <= i < Regions(s, 0)[k].end
    ensures Regions(s, 0)[k].start < |s| && i < |s|
    ensures CommentOpens(s, Regions(s, 0)[k].start) ==> Sanitized(s, false)[i] == Sanitized(s, true)[i] == Blank(s[i])
    ensures !CommentOpens(s, Regions(s, 0)[k].start) ==> Sanitized(s, false)[i] == s[i] && Sanitized(s, true)[i] == Blank(s[i])
  {
    hide Regions, CommentOpens;
    RegionKinds(s, k);
    RegionsApart(s, 0);
    var r := Regions(s, 0)[k];
    assert Inside(Regions(s, 0), r.kind, i);
    StrippingTouchesLiteralsOnly(s, i);
    SanitizedKeepsShape(s, true, i);
    SanitizedKeepsShape(s, false, i);
  }

  /** With and without literals the results agree everywhere but inside literals, which one blanks and the other keeps. */
  lemma StrippingTouchesLiteralsOnly(s: string, i: nat)
    requires i < |s|
    ensures !Inside(Regions(s, 0), Literal, i) ==> Sanitized(s, true)[i] == Sanitized(s, false)[i]
    ensures Inside(Regions(s, 0), Literal, i) ==> Sanitized(s, true)[i] == Blank(s[i]) && Sanitized(s, false)[i] == s[i]
  {
    hide Regions;
    SpansCover(Regions(s, 0), true, i);
    SpansCover(Regions(s, 0), false, i);
    NotBoth(s, i);
  }
}
