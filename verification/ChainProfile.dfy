/**
 Chain profiles: validation, canonical bytes and the margin floors of composed
 routes (crates/chain-profile/src/lib.rs).
 */
module ChainProfile {
  import opened Wire
  import opened RegistryCodec
  import opened RegistryLayout
  import RegistryStream

  const ETHEREUM_MAINNET := 1

  datatype Refusal =
    | InvalidTimingBounds | InvalidFinality | ReorgBudgetBelowFinalityDepth | MainnetExcluded | UnpinnedCodeHash
    | DuplicateAsset | TooManyAssets | Overflow

  /** The chain facts a registry entry carries, without its deployment. */
  datatype Profile = Profile(chainId: Bytes, kind: Kind, timing: Timing, finality: Finality, nativeAsset: Bytes,
    allowed: seq<Bytes>)

  /** The widths of the source's types. */
  predicate Typed(p: Profile) {
    && |p.chainId| == 32 && KindFits(p.kind) && TimingFits(p.timing) && FinalityFits(p.finality)
    && |p.nativeAsset| == 32 && AllowedFits(p.allowed)
  }

  predicate U32(n: nat) {
    n < Pow256(4)
  }

  // ===== Checked arithmetic

  function CheckedAdd(a: nat, b: nat): Result<nat, Refusal> {
    if a + b > MAX_U64 then Err(Overflow) else Ok(a + b)
  }

  function CheckedMul(a: nat, b: nat): Result<nat, Refusal> {
    if a * b > MAX_U64 then Err(Overflow) else Ok(a * b)
  }

  function Quotient(a: Result<nat, Refusal>, b: nat): Result<nat, Refusal>
    requires b > 0
  {
    match a case Ok(v) => Ok(v / b) case Err(e) => Err(e)
  }

  predicate BoundsValid(t: Timing) {
    t.minBlock != 0 && t.maxBlock != 0 && t.minBlock <= t.maxBlock
  }

  function Budget(t: Timing): nat {
    t.maxReorg + t.observation + t.broadcast
  }

  /** Adds the six budgets of two chains one by one, refusing an overflow. */
  method SafetyMargin(a: Timing, b: Timing) returns (r: Result<nat, Refusal>)
    requires TimingFits(a) && TimingFits(b)
    ensures r == if BoundsValid(a) && BoundsValid(b) then Ok(Budget(a) + Budget(b)) else Err(InvalidTimingBounds)
  {
    if !BoundsValid(a) || !BoundsValid(b) {
      return Err(InvalidTimingBounds);
    }
    Pow256Values();
    var budgets := [a.maxReorg, a.observation, a.broadcast, b.maxReorg, b.observation, b.broadcast];
    r := Ok(0);
    for i := 0 to |budgets|
      invariant r == Ok(Sum(budgets[..i])) && Sum(budgets[..i]) <= 0x1_0000_0000 * i
    {
      assert budgets[..i + 1][..i] == budgets[..i];
      r := match r case Ok(sum) => CheckedAdd(sum, budgets[i]) case Err(e) => Err(e);
    }
    SumOfSix(budgets);
  }

  function Sum(s: seq<nat>): nat {
    if s == [] then 0 else Sum(s[..|s| - 1]) + s[|s| - 1]
  }

  lemma SumOfSix(s: seq<nat>)
    requires |s| == 6
    ensures Sum(s[..6]) == s[0] + s[1] + s[2] + s[3] + s[4] + s[5]
  {
    assert s[..6][..5] == s[..5] && s[..5][..4] == s[..4] && s[..4][..3] == s[..3] && s[..3][..2] == s[..2] && s[..2][..1] == s[..1];
    assert Sum(s[..1]) == s[0] && Sum(s[..2]) == s[0] + s[1] && Sum(s[..3]) == s[0] + s[1] + s[2];
    assert Sum(s[..4]) == s[0] + s[1] + s[2] + s[3] && Sum(s[..5]) == s[0] + s[1] + s[2] + s[3] + s[4];
  }

  // ===== Validation

  predicate KindPinned(k: Kind) {
    match k
    case Evm(id, _, hash, token) =>
      id != 0 && id != ETHEREUM_MAINNET && hash != ZERO32 && (token.Some? ==> token.value.codeHash != ZERO32)
    case Solana(_, program, hash) => program != ZERO32 && hash != ZERO32
    case _ => true
  }

  predicate AssetsValid(p: Profile) {
    && |p.allowed| <= MAX_ALLOWED_ASSETS && (forall i :: 0 <= i < |p.allowed| ==> p.allowed[i] != p.nativeAsset)
    && forall i, j :: 0 <= i < j < |p.allowed| ==> p.allowed[i] != p.allowed[j]
  }

  /** The budgets are positive, the bounds sane, and the reorg seconds cover the tolerated depth at the slowest interval. */
  predicate TimingCoherent(t: Timing, f: Finality) {
    && BoundsValid(t) && t.maxReorg != 0 && t.observation != 0 && t.broadcast != 0
    && f.minConfirmations != 0 && f.maxReorgDepth >= f.minConfirmations
    && f.maxReorgDepth * t.maxBlock <= t.maxReorg
  }

  predicate ProfileValid(p: Profile) {
    TimingCoherent(p.timing, p.finality) && KindPinned(p.kind) && AssetsValid(p)
  }

  lemma ProductFits(a: nat, b: nat)
    requires U32(a) && U32(b)
    ensures a * b <= MAX_U64
  {
    Pow256Values();
    TimesMonotone(a, 0xFFFF_FFFF, b);
  }

  method Validate(p: Profile) returns (r: Result<(), Refusal>)
    requires Typed(p)
    ensures r.Ok? <==> ProfileValid(p)
    ensures r.Err? ==> r.error != Overflow
  {
    var margin :- SafetyMargin(p.timing, p.timing);
    if p.timing.maxReorg == 0 || p.timing.observation == 0 || p.timing.broadcast == 0 {
      return Err(InvalidTimingBounds);
    }
    if p.finality.minConfirmations == 0 || p.finality.maxReorgDepth < p.finality.minConfirmations {
      return Err(InvalidFinality);
    }
    ProductFits(p.finality.maxReorgDepth, p.timing.maxBlock);
    var depth := CheckedMul(p.finality.maxReorgDepth, p.timing.maxBlock);
    if depth.Err? || p.timing.maxReorg < depth.value {
      return Err(if depth.Err? then Overflow else ReorgBudgetBelowFinalityDepth);
    }
    match p.kind {
      case Evm(id, _, hash, token) =>
        if id == 0 || id == ETHEREUM_MAINNET {
          return Err(MainnetExcluded);
        }
        if hash == ZERO32 || (token.Some? && token.value.codeHash == ZERO32) {
          return Err(UnpinnedCodeHash);
        }
      case Solana(_, program, hash) =>
        if program == ZERO32 || hash == ZERO32 {
          return Err(UnpinnedCodeHash);
        }
      case _ =>
    }
    var _ :- CheckAssets(p);
    r := Ok(());
  }

  method CheckAssets(p: Profile) returns (r: Result<(), Refusal>)
    ensures r.Ok? <==> AssetsValid(p)
    ensures r.Err? ==> r.error != Overflow
  {
    if |p.allowed| > MAX_ALLOWED_ASSETS {
      return Err(TooManyAssets);
    }
    for i := 0 to |p.allowed|
      invariant forall k :: 0 <= k < i ==> p.allowed[k] != p.nativeAsset
      invariant forall k, m :: 0 <= k < m < i ==> p.allowed[k] != p.allowed[m]
    {
      if p.allowed[i] == p.nativeAsset || p.allowed[i] in p.allowed[..i] {
        return Err(DuplicateAsset);
      }
    }
    r := Ok(());
  }

  // ===== Margin floors

  function DepthSeconds(p: Profile): nat {
    p.finality.maxReorgDepth * p.timing.maxBlock
  }

  /** The counterparty floor exists for every pair of valid profiles and covers both tolerated reorgs at their slowest. */
  method CounterpartyFloor(up: Profile, down: Profile) returns (r: Result<nat, Refusal>)
    requires Typed(up) && Typed(down)
    ensures r.Ok? <==> ProfileValid(up) && ProfileValid(down)
    ensures r.Ok? ==> r.value == Budget(up.timing) + Budget(down.timing)
    ensures r.Ok? ==> r.value > DepthSeconds(up) + DepthSeconds(down)
    ensures r.Err? ==> r.error != Overflow
  {
    var _ :- Validate(up);
    var _ :- Validate(down);
    r := SafetyMargin(up.timing, down.timing);
  }

  /** `n` is the least number of intervals of `interval` seconds that lasts `seconds`. */
  predicate LeastCover(n: nat, interval: nat, seconds: nat) {
    n * interval >= seconds && forall m: nat :: m * interval >= seconds ==> n <= m
  }

  lemma CeilingIsLeast(seconds: nat, interval: nat)
    requires interval > 0
    ensures LeastCover((seconds + (interval - 1)) / interval, interval, seconds)
  {
    var n := (seconds + (interval - 1)) / interval;
    assert n * interval >= seconds;
    forall m: nat | m * interval >= seconds
      ensures n <= m
    {
      assert (m + 1) * interval == m * interval + interval;
      if m < n {
        TimesMonotone(m + 1, n, interval);
      }
    }
  }

  /** More seconds than twice the depth at the slowest interval take more than twice the depth at the fastest. */
  lemma FloorExceedsDepth(n: nat, t: Timing, f: Finality)
    requires TimingCoherent(t, f) && n * t.minBlock >= 2 * Budget(t)
    ensures n > 2 * f.maxReorgDepth
  {
    var d := 2 * f.maxReorgDepth;
    TimesMonotone(t.minBlock, t.maxBlock, d);
    assert t.maxBlock * d == 2 * (f.maxReorgDepth * t.maxBlock) && t.minBlock * d == d * t.minBlock;
    if n <= d {
      TimesMonotone(n, d, t.minBlock);
    }
  }

  /**
   The hub floor exists for every valid profile, is the least block count whose fastest duration covers
   the doubled budget, and exceeds twice the tolerated reorg depth.
   */
  method HubFloor(hub: Profile) returns (r: Result<nat, Refusal>)
    requires Typed(hub)
    ensures r.Ok? <==> ProfileValid(hub)
    ensures r.Ok? ==> LeastCover(r.value, hub.timing.minBlock, 2 * Budget(hub.timing))
    ensures r.Ok? ==> r.value > 2 * hub.finality.maxReorgDepth
    ensures r.Err? ==> r.error != Overflow
  {
    Pow256Values();
    var _ :- Validate(hub);
    var seconds := SafetyMargin(hub.timing, hub.timing);
    var interval := hub.timing.minBlock;
    var rounded := CheckedAdd(seconds.value, interval - 1);
    CeilingIsLeast(seconds.value, interval);
    FloorExceedsDepth((seconds.value + (interval - 1)) / interval, hub.timing, hub.finality);
    r := Quotient(rounded, interval);
  }

  // ===== Canonical bytes

  function Canonical(p: Profile): Bytes {
    p.chainId + PutKind(p.kind, PutTiming(p.timing, PutFinality(p.finality, p.nativeAsset
      + (ToBE(|p.allowed|, 8) + PutAllowed(p.allowed, [])))))
  }

  /** Only a valid profile encodes. */
  method CanonicalBytes(p: Profile) returns (r: Result<Bytes, Refusal>)
    requires Typed(p)
    ensures r.Ok? <==> ProfileValid(p)
    ensures r.Ok? ==> r.value == Canonical(p)
  {
    hide ProfileValid, ToBE, PutKind, PutTiming, PutFinality, PutAllowed;
    var _ :- Validate(p);
    var w := new Buffer();
    ghost var t5 := ToBE(|p.allowed|, 8) + PutAllowed(p.allowed, []);
    ghost var t4 := p.nativeAsset + t5;
    ghost var t3 := PutFinality(p.finality, t4);
    ghost var t2 := PutTiming(p.timing, t3);
    w.Extend(p.chainId, PutKind(p.kind, t2));
    RegistryStream.EncodeKind(w, p.kind, t2);
    RegistryStream.EncodeTiming(w, p.timing, t3);
    RegistryStream.EncodeFinality(w, p.finality, t4);
    w.Extend(p.nativeAsset, t5);
    w.Extend(ToBE(|p.allowed|, 8), PutAllowed(p.allowed, []));
    RegistryStream.EncodeAllowed(w, p.allowed, []);
    assert [] + Canonical(p) == Canonical(p) && w.out + [] == w.out;
    r := Ok(w.out);
  }

  /** Two parties that pin the same canonical bytes priced the same chain facts. */
  lemma CanonicalInjective(a: Profile, b: Profile)
    requires Typed(a) && Typed(b) && |a.allowed| <= MAX_U64 && |b.allowed| <= MAX_U64 && Canonical(a) == Canonical(b)
    ensures a == b
  {
    hide PutKind, GetKind, PutTiming, GetTiming, PutFinality, GetFinality, PutAllowed, GetAllowed, ToBE, KindFits,
         TimingFits, FinalityFits, AllowedFits;
    var la, lb := ToBE(|a.allowed|, 8) + PutAllowed(a.allowed, []), ToBE(|b.allowed|, 8) + PutAllowed(b.allowed, []);
    var fa, fb := PutFinality(a.finality, a.nativeAsset + la), PutFinality(b.finality, b.nativeAsset + lb);
    var ta, tb := PutTiming(a.timing, fa), PutTiming(b.timing, fb);
    SplitEqual(a.chainId, PutKind(a.kind, ta), b.chainId, PutKind(b.kind, tb));
    KindInverse(a.kind, ta);
    KindInverse(b.kind, tb);
    TimingInverse(a.timing, fa);
    TimingInverse(b.timing, fb);
    FinalityInverse(a.finality, a.nativeAsset + la);
    FinalityInverse(b.finality, b.nativeAsset + lb);
    SplitEqual(a.nativeAsset, la, b.nativeAsset, lb);
    SplitEqual(ToBE(|a.allowed|, 8), PutAllowed(a.allowed, []), ToBE(|b.allowed|, 8), PutAllowed(b.allowed, []));
    Pow256Values();
    ToBERoundTrip(|a.allowed|, 8);
    ToBERoundTrip(|b.allowed|, 8);
    AllowedInverse([], a.allowed, []);
    AllowedInverse([], b.allowed, []);
    assert [] + a.allowed == a.allowed && [] + b.allowed == b.allowed;
  }

  /** Where every fact stands in the canonical bytes. */
  lemma CanonicalLayout(p: Profile)
    requires Typed(p) && |p.allowed| <= MAX_U64
    ensures var m := Canonical(p); var a := 32 + KindWidth(p.kind);
      && |m| == a + 68 + 32 * |p.allowed| && m[..32] == p.chainId && KindAt(m, 32, p.kind)
      && TimingAt(m, a, p.timing) && FinalityAt(m, a + 20, p.finality) && m[a + 28..a + 60] == p.nativeAsset
      && FromBE(m[a + 60..a + 68]) == |p.allowed| && AllowedAt(m, a + 68, p.allowed)
  {
    hide ToBE, FromBE, PutKind, PutTiming, PutFinality, PutAllowed, KindAt, TimingAt, FinalityAt, AllowedAt, KindWidth,
         KindFits, TimingFits, FinalityFits, AllowedFits, Pow256;
    Pow256Values();
    var m, a := Canonical(p), 32 + KindWidth(p.kind);
    var t5 := PutAllowed(p.allowed, []);
    var t4 := ToBE(|p.allowed|, 8) + t5;
    var t3 := p.nativeAsset + t4;
    var t2 := PutFinality(p.finality, t3);
    var t1 := PutTiming(p.timing, t2);
    assert m[0..] == m;
    Peel(m, 0, p.chainId, PutKind(p.kind, t1));
    KindLayout(m, 32, p.kind, t1);
    TimingLayout(m, a, p.timing, t2);
    FinalityLayout(m, a + 20, p.finality, t3);
    Peel(m, a + 28, p.nativeAsset, t4);
    PeelNumber(m, a + 60, |p.allowed|, 8, t5);
    AllowedLayout(m, a + 68, p.allowed, []);
  }

  /** What every valid profile promises: positive budgets, a tolerated depth the budget covers, no mainnet, pinned code, distinct assets. */
  lemma ProfileMeans(p: Profile)
    requires ProfileValid(p)
    ensures var t := p.timing; 1 <= t.minBlock <= t.maxBlock && t.maxReorg >= 1 && t.observation >= 1 && t.broadcast >= 1
    ensures 1 <= p.finality.minConfirmations <= p.finality.maxReorgDepth
    ensures p.finality.maxReorgDepth * p.timing.maxBlock <= p.timing.maxReorg
    ensures p.kind.Evm? ==> p.kind.evmChainId >= 2 && p.kind.nativeCode != ZERO32
    ensures p.kind.Evm? && p.kind.erc20.Some? ==> p.kind.erc20.value.codeHash != ZERO32
    ensures p.kind.Solana? ==> p.kind.escrowProgram != ZERO32 && p.kind.programData != ZERO32
    ensures |p.allowed| <= 64 && p.nativeAsset !in p.allowed && |set a | a in p.allowed| == |p.allowed|
  {
    DistinctCounts(p.allowed);
  }

  lemma {:induction false} DistinctCounts(s: seq<Bytes>)
    requires forall i, j :: 0 <= i < j < |s| ==> s[i] != s[j]
    ensures |set a | a in s| == |s|
  {
    if s != [] {
      var rest, last := s[..|s| - 1], s[|s| - 1];
      DistinctCounts(rest);
      assert (set a | a in s) == (set a | a in rest) + {last};
      assert last !in rest;
    }
  }
}
