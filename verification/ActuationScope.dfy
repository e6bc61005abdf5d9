/**
 The 554-byte actuation scope and the 66-byte port-call outcome of
 crates/btc-actuator/src/model.rs.
 */
module ActuationScope {
  import opened Wire
  import Registry = RegistryCodec

  const ACTUATION_SCOPE_BYTES := 554
  const OUTCOME_BYTES := 66
  const MAX_MONEY_SAT := 21_000_000 * 100_000_000
  const MAX_SIGNET_CHALLENGE_BYTES := 10_000
  const SCOPE_DOMAIN := "DOM-INTEROP/BTC-ACTUATOR/SCOPE/V1\0"
  const DEPLOYMENT_DOMAIN := "DOM-INTEROP/BTC-ACTUATOR/DEPLOYMENT/V1\0"

  datatype ScopeError = CorruptState | InvalidScope

  type Reading<T> = Parsed<T, ScopeError>

  datatype Leg = Upstream | Downstream
  datatype Action = Funding | Claim | Refund
  type Network = Registry.BitcoinNetwork
  datatype Outpoint = Outpoint(txid: Bytes, vout: nat)
  datatype FeePolicy = FeePolicy(initialFee: nat, maximumFee: nat, maximumRate: nat, changeVout: Option<nat>)

  datatype Scope = Scope(
    routeId: Bytes, effectId: Bytes, leg: Leg, action: Action, fenceEpoch: nat, terms: Bytes, registry: Bytes,
    registryEpoch: nat, profile: Bytes, assetBinding: Bytes, chainId: Bytes, deployment: Bytes, network: Network,
    genesis: Bytes, challengeDigest: Bytes, expectedTxid: Bytes, intent: Bytes, outpoint: Option<Outpoint>,
    amount: nat, refundRecord: Option<Bytes>, policy: FeePolicy, confirmations: nat, validUntil: nat, digest: Bytes)

  predicate IsTerminal(a: Action) {
    a == Claim || a == Refund
  }

  predicate PolicyValid(p: FeePolicy, deploymentMaxRate: nat) {
    && p.initialFee != 0 && p.maximumFee >= p.initialFee
    && p.maximumRate != 0 && p.maximumRate <= deploymentMaxRate
  }

  /** The widths of the source's field types. */
  predicate Typed(s: Scope) {
    && |s.routeId| == 32 && |s.effectId| == 32 && s.fenceEpoch < Pow256(8) && |s.terms| == 32
    && |s.registry| == 32 && s.registryEpoch < Pow256(8) && |s.profile| == 32 && |s.assetBinding| == 32
    && |s.chainId| == 32 && |s.deployment| == 32 && |s.genesis| == 32 && |s.challengeDigest| == 32
    && |s.expectedTxid| == 32 && |s.intent| == 32
    && (s.outpoint.Some? ==> |s.outpoint.value.txid| == 32 && s.outpoint.value.vout < Pow256(4))
    && s.amount < Pow256(8) && (s.refundRecord.Some? ==> |s.refundRecord.value| == 32)
    && s.policy.initialFee < Pow256(8) && s.policy.maximumFee < Pow256(8) && s.policy.maximumRate < Pow256(8)
    && (s.policy.changeVout.Some? ==> s.policy.changeVout.value < Pow256(4))
    && s.confirmations < Pow256(4) && s.validUntil < Pow256(8) && |s.digest| == 32
  }

  /** The field checks both minting and reopening make. */
  predicate FieldsValid(s: Scope) {
    && s.routeId != ZERO32 && s.effectId != ZERO32 && s.fenceEpoch != 0 && s.terms != ZERO32
    && s.registry != ZERO32 && s.registryEpoch != 0 && s.profile != ZERO32 && s.assetBinding != ZERO32
    && s.chainId != ZERO32 && s.genesis != ZERO32 && s.expectedTxid != ZERO32 && s.intent != ZERO32
    && s.amount != 0 && s.amount <= MAX_MONEY_SAT && s.confirmations != 0 && s.validUntil != 0
    && !(IsTerminal(s.action) && s.outpoint.None?)
    && !(s.action == Funding && s.outpoint.Some?)
    && !(s.action == Funding && (s.refundRecord.None? || s.refundRecord.value == ZERO32))
  }

  // ===== Encoding

  function LegTag(l: Leg): Byte {
    match l case Upstream => 1 case Downstream => 2
  }

  function ActionTag(a: Action): Byte {
    match a case Funding => 1 case Claim => 2 case Refund => 3
  }

  function NetworkTag(n: Network): Byte {
    Registry.BitcoinTag(n)
  }

  function PutOutpoint(o: Option<Outpoint>, rest: Bytes): Bytes {
    match o
    case Some(p) => [1] + (p.txid + (ToBE(p.vout, 4) + rest))
    case None => [0] + (Zeros(36) + rest)
  }

  function PutRefund(o: Option<Bytes>, rest: Bytes): Bytes {
    match o
    case Some(v) => [1] + (v + rest)
    case None => [0] + (Zeros(32) + rest)
  }

  function PutChange(o: Option<nat>, rest: Bytes): Bytes {
    match o
    case Some(v) => [1] + (ToBE(v, 4) + rest)
    case None => [0] + (Zeros(4) + rest)
  }

  function PutPolicy(p: FeePolicy, rest: Bytes): Bytes {
    ToBE(p.initialFee, 8) + (ToBE(p.maximumFee, 8) + (ToBE(p.maximumRate, 8) + PutChange(p.changeVout, rest)))
  }

  function PutEffect(s: Scope, rest: Bytes): Bytes {
    s.routeId + (s.effectId + ([LegTag(s.leg)] + ([ActionTag(s.action)] + (ToBE(s.fenceEpoch, 8)
      + (s.terms + (s.registry + (ToBE(s.registryEpoch, 8) + rest)))))))
  }

  function PutChainFacts(s: Scope, rest: Bytes): Bytes {
    s.profile + (s.assetBinding + (s.chainId + (s.deployment + ([NetworkTag(s.network)]
      + (s.genesis + (s.challengeDigest + (s.expectedTxid + (s.intent + rest))))))))
  }

  function PutMoney(s: Scope, rest: Bytes): Bytes {
    PutOutpoint(s.outpoint, ToBE(s.amount, 8) + PutRefund(s.refundRecord, PutPolicy(s.policy,
      ToBE(s.confirmations, 4) + (ToBE(s.validUntil, 8) + rest))))
  }

  /** Every field but the digest, in front of `rest`. */
  function PutBody(s: Scope, rest: Bytes): Bytes {
    PutEffect(s, PutChainFacts(s, PutMoney(s, rest)))
  }

  function CanonicalBytes(s: Scope): Bytes {
    PutBody(s, s.digest)
  }

  // ===== Decoding

  function GetZeros(n: nat, s: Bytes): Reading<()> {
    var (z, s) :- Take(n, s, CorruptState);
    if z == Zeros(n) then Good((), s) else Bad(CorruptState)
  }

  function GetLeg(s: Bytes): Reading<Leg> {
    var (tag, s) :- TakeU8(s, CorruptState);
    if tag == 1 then Good(Upstream, s) else if tag == 2 then Good(Downstream, s) else Bad(CorruptState)
  }

  function GetAction(s: Bytes): Reading<Action> {
    var (tag, s) :- TakeU8(s, CorruptState);
    if tag == 1 then Good(Funding, s) else if tag == 2 then Good(Claim, s)
    else if tag == 3 then Good(Refund, s) else Bad(CorruptState)
  }

  function GetNetwork(s: Bytes): Reading<Network> {
    var (tag, s) :- TakeU8(s, CorruptState);
    if tag == 1 then Good(Registry.BitcoinRegtest, s) else if tag == 2 then Good(Registry.CustomSignet, s)
    else if tag == 3 then Good(Registry.PublicSignet, s) else Bad(CorruptState)
  }

  function GetOutpoint(s: Bytes): Reading<Option<Outpoint>> {
    var (tag, s) :- TakeU8(s, CorruptState);
    if tag == 0 then
      var (_, s) :- GetZeros(36, s);
      Good(None, s)
    else if tag == 1 then
      var (txid, s) :- Take(32, s, CorruptState);
      var (vout, s) :- TakeU(4, s, CorruptState);
      Good(Some(Outpoint(txid, vout)), s)
    else Bad(CorruptState)
  }

  function GetRefund(s: Bytes): Reading<Option<Bytes>> {
    var (tag, s) :- TakeU8(s, CorruptState);
    if tag == 0 then
      var (_, s) :- GetZeros(32, s);
      Good(None, s)
    else if tag == 1 then
      var (v, s) :- Take(32, s, CorruptState);
      Good(Some(v), s)
    else Bad(CorruptState)
  }

  function GetPolicy(s: Bytes): Reading<FeePolicy> {
    var (initialFee, s) :- TakeU(8, s, CorruptState);
    var (maximumFee, s) :- TakeU(8, s, CorruptState);
    var (maximumRate, s) :- TakeU(8, s, CorruptState);
    var (change, s) :- GetChange(s);
    Good(FeePolicy(initialFee, maximumFee, maximumRate, change), s)
  }

  function GetChange(s: Bytes): Reading<Option<nat>> {
    var (tag, s) :- TakeU8(s, CorruptState);
    if tag == 0 then
      var (_, s) :- GetZeros(4, s);
      Good(None, s)
    else if tag == 1 then
      var (v, s) :- TakeU(4, s, CorruptState);
      Good(Some(v), s)
    else Bad(CorruptState)
  }

  datatype Effect = Effect(routeId: Bytes, effectId: Bytes, leg: Leg, action: Action, fenceEpoch: nat,
    terms: Bytes, registry: Bytes, registryEpoch: nat)

  function GetEffect(s: Bytes): Reading<Effect> {
    var (routeId, s) :- Take(32, s, CorruptState);
    var (effectId, s) :- Take(32, s, CorruptState);
    var (leg, s) :- GetLeg(s);
    var (action, s) :- GetAction(s);
    var (fence, s) :- TakeU(8, s, CorruptState);
    var (terms, s) :- Take(32, s, CorruptState);
    var (registry, s) :- Take(32, s, CorruptState);
    var (epoch, s) :- TakeU(8, s, CorruptState);
    Good(Effect(routeId, effectId, leg, action, fence, terms, registry, epoch), s)
  }

  datatype ChainFacts = ChainFacts(profile: Bytes, assetBinding: Bytes, chainId: Bytes, deployment: Bytes,
    network: Network, genesis: Bytes, challengeDigest: Bytes, expectedTxid: Bytes, intent: Bytes)

  function GetChainFacts(s: Bytes): Reading<ChainFacts> {
    var (profile, s) :- Take(32, s, CorruptState);
    var (binding, s) :- Take(32, s, CorruptState);
    var (chainId, s) :- Take(32, s, CorruptState);
    var (deployment, s) :- Take(32, s, CorruptState);
    var (network, s) :- GetNetwork(s);
    var (genesis, s) :- Take(32, s, CorruptState);
    var (challenge, s) :- Take(32, s, CorruptState);
    var (txid, s) :- Take(32, s, CorruptState);
    var (intent, s) :- Take(32, s, CorruptState);
    Good(ChainFacts(profile, binding, chainId, deployment, network, genesis, challenge, txid, intent), s)
  }

  /** Every field but the digest, which is left empty. */
  function GetBody(s: Bytes): Reading<Scope> {
    var (e, s) :- GetEffect(s);
    var (f, s) :- GetChainFacts(s);
    var (outpoint, s) :- GetOutpoint(s);
    var (amount, s) :- TakeU(8, s, CorruptState);
    var (refund, s) :- GetRefund(s);
    var (policy, s) :- GetPolicy(s);
    var (confirmations, s) :- TakeU(4, s, CorruptState);
    var (validUntil, s) :- TakeU(8, s, CorruptState);
    Good(Scope(e.routeId, e.effectId, e.leg, e.action, e.fenceEpoch, e.terms, e.registry, e.registryEpoch,
      f.profile, f.assetBinding, f.chainId, f.deployment, f.network, f.genesis, f.challengeDigest,
      f.expectedTxid, f.intent, outpoint, amount, refund, policy, confirmations, validUntil, []), s)
  }

  function GetScope(s: Bytes): Reading<Scope> {
    var (scope, s) :- GetBody(s);
    var (digest, s) :- Take(32, s, CorruptState);
    Good(scope.(digest := digest), s)
  }

  /** Everything reopening checks before it compares digests. */
  function ReadChecked(bytes: Bytes): Result<Scope, ScopeError> {
    if |bytes| != ACTUATION_SCOPE_BYTES then Err(CorruptState) else
    match GetScope(bytes)
    case Bad(e) => Err(e)
    case Good(s, rest) =>
      if rest != [] || !FieldsValid(s) || !PolicyValid(s.policy, MAX_U64) then Err(CorruptState)
      else Ok(s)
  }

  function DigestPreimage(s: Scope): Bytes {
    ToAscii(SCOPE_DOMAIN) + PutBody(s, [])
  }

  function Digest(hash: Bytes -> Bytes, s: Scope): Bytes {
    hash(DigestPreimage(s))
  }

  function Reopen(hash: Bytes -> Bytes, bytes: Bytes): Result<Scope, ScopeError> {
    match ReadChecked(bytes)
    case Err(e) => Err(e)
    case Ok(s) =>
      if Digest(hash, s) != s.digest || CanonicalBytes(s) != bytes then Err(CorruptState) else Ok(s)
  }

  // ===== Round trips

  lemma EffectInverse(s: Scope, rest: Bytes)
    requires Typed(s)
    ensures GetEffect(PutEffect(s, rest)) == Good(Effect(s.routeId, s.effectId, s.leg, s.action, s.fenceEpoch,
      s.terms, s.registry, s.registryEpoch), rest)
  {
    hide Take, TakeU, TakeU8, ToBE, Pow256;
    ReadsBack<ScopeError>();
  }

  lemma ChainFactsInverse(s: Scope, rest: Bytes)
    requires Typed(s)
    ensures GetChainFacts(PutChainFacts(s, rest)) == Good(ChainFacts(s.profile, s.assetBinding, s.chainId,
      s.deployment, s.network, s.genesis, s.challengeDigest, s.expectedTxid, s.intent), rest)
  {
    hide Take, TakeU, TakeU8, ToBE, Pow256;
    ReadsBack<ScopeError>();
  }

  lemma OptionsInverse(o: Option<Outpoint>, r: Option<Bytes>, rest: Bytes)
    requires o.Some? ==> |o.value.txid| == 32 && o.value.vout < Pow256(4)
    requires r.Some? ==> |r.value| == 32
    ensures GetOutpoint(PutOutpoint(o, rest)) == Good(o, rest)
    ensures GetRefund(PutRefund(r, rest)) == Good(r, rest)
  {
    hide Take, TakeU, TakeU8, ToBE, Pow256, Zeros;
    ReadsBack<ScopeError>();
  }

  lemma PolicyInverse(p: FeePolicy, rest: Bytes)
    requires p.initialFee < Pow256(8) && p.maximumFee < Pow256(8) && p.maximumRate < Pow256(8)
    requires p.changeVout.Some? ==> p.changeVout.value < Pow256(4)
    ensures GetPolicy(PutPolicy(p, rest)) == Good(p, rest)
  {
    hide Take, TakeU, TakeU8, ToBE, Pow256, Zeros;
    ReadsBack<ScopeError>();
  }

  lemma BodyInverse(s: Scope, rest: Bytes)
    requires Typed(s)
    ensures GetBody(PutBody(s, rest)) == Good(s.(digest := []), rest)
  {
    hide Take, TakeU, TakeU8, ToBE, Pow256, GetEffect, PutEffect, GetChainFacts, PutChainFacts, GetOutpoint,
         PutOutpoint, GetRefund, PutRefund, GetPolicy, PutPolicy;
    ReadsBack<ScopeError>();
    var tail := ToBE(s.confirmations, 4) + (ToBE(s.validUntil, 8) + rest);
    PolicyInverse(s.policy, tail);
    OptionsInverse(None, s.refundRecord, PutPolicy(s.policy, tail));
    OptionsInverse(s.outpoint, None, ToBE(s.amount, 8) + PutRefund(s.refundRecord, PutPolicy(s.policy, tail)));
    ChainFactsInverse(s, PutMoney(s, rest));
    EffectInverse(s, PutChainFacts(s, PutMoney(s, rest)));
  }

  lemma ScopeInverse(s: Scope)
    requires Typed(s)
    ensures GetScope(CanonicalBytes(s)) == Good(s, [])
  {
    hide GetBody, PutBody, Take;
    BodyInverse(s, s.digest);
    ReadsBack<ScopeError>();
    assert s.digest == s.digest + [];
  }

  /** Unless two preimages collide, a scope digest fixes every other field of the scope. */
  lemma DigestBinds(hash: Bytes -> Bytes, a: Scope, b: Scope)
    requires Typed(a) && Typed(b) && Digest(hash, a) == Digest(hash, b)
    requires InjectiveOn(hash, {DigestPreimage(a), DigestPreimage(b)})
    ensures a == b.(digest := a.digest)
  {
    hide GetBody, PutBody, ToAscii, Typed;
    var d := ToAscii(SCOPE_DOMAIN);
    assert DigestPreimage(a) == DigestPreimage(b);
    SplitEqual(d, PutBody(a, []), d, PutBody(b, []));
    BodyInverse(a, []);
    BodyInverse(b, []);
  }

  predicate EffectFits(e: Effect) {
    && |e.routeId| == 32 && |e.effectId| == 32 && e.fenceEpoch < Pow256(8) && |e.terms| == 32
    && |e.registry| == 32 && e.registryEpoch < Pow256(8)
  }

  lemma EffectSound(bytes: Bytes, s: Scope)
    requires var r := GetEffect(bytes);
      r.Good? && r.value == Effect(s.routeId, s.effectId, s.leg, s.action, s.fenceEpoch, s.terms, s.registry,
        s.registryEpoch)
    ensures EffectFits(GetEffect(bytes).value) && bytes == PutEffect(s, GetEffect(bytes).rest)
  {
    hide Take, TakeU, TakeU8, ToBE, Pow256;
    WritesBack<ScopeError>();
  }

  predicate FactsFit(f: ChainFacts) {
    && |f.profile| == 32 && |f.assetBinding| == 32 && |f.chainId| == 32 && |f.deployment| == 32
    && |f.genesis| == 32 && |f.challengeDigest| == 32 && |f.expectedTxid| == 32 && |f.intent| == 32
  }

  lemma ChainFactsSound(bytes: Bytes, s: Scope)
    requires var r := GetChainFacts(bytes);
      r.Good? && r.value == ChainFacts(s.profile, s.assetBinding, s.chainId, s.deployment, s.network, s.genesis,
        s.challengeDigest, s.expectedTxid, s.intent)
    ensures FactsFit(GetChainFacts(bytes).value) && bytes == PutChainFacts(s, GetChainFacts(bytes).rest)
  {
    hide Take, TakeU, TakeU8, ToBE, Pow256;
    WritesBack<ScopeError>();
  }

  lemma OutpointSound(bytes: Bytes)
    requires GetOutpoint(bytes).Good?
    ensures var r := GetOutpoint(bytes);
      && (r.value.Some? ==> |r.value.value.txid| == 32 && r.value.value.vout < Pow256(4))
      && bytes == PutOutpoint(r.value, r.rest)
  {
    hide Take, TakeU, TakeU8, ToBE, Pow256, Zeros;
    WritesBack<ScopeError>();
  }

  lemma RefundSound(bytes: Bytes)
    requires GetRefund(bytes).Good?
    ensures var r := GetRefund(bytes);
      (r.value.Some? ==> |r.value.value| == 32) && bytes == PutRefund(r.value, r.rest)
  {
    hide Take, TakeU, TakeU8, ToBE, Pow256, Zeros;
    WritesBack<ScopeError>();
  }

  lemma PolicySound(bytes: Bytes)
    requires GetPolicy(bytes).Good?
    ensures var r := GetPolicy(bytes); var p := r.value;
      && p.initialFee < Pow256(8) && p.maximumFee < Pow256(8) && p.maximumRate < Pow256(8)
      && (p.changeVout.Some? ==> p.changeVout.value < Pow256(4))
      && bytes == PutPolicy(p, r.rest)
  {
    hide Take, TakeU, TakeU8, ToBE, Pow256, Zeros;
    WritesBack<ScopeError>();
  }

  lemma BodySound(bytes: Bytes, digest: Bytes)
    requires GetBody(bytes).Good? && |digest| == 32
    ensures var s := GetBody(bytes).value.(digest := digest); Typed(s) && bytes == PutBody(s, GetBody(bytes).rest)
  {
    hide Take, TakeU, TakeU8, ToBE, Pow256, GetEffect, PutEffect, GetChainFacts, PutChainFacts, GetOutpoint,
         PutOutpoint, GetRefund, PutRefund, GetPolicy, PutPolicy;
    WritesBack<ScopeError>();
    var s := GetBody(bytes).value.(digest := digest);
    EffectSound(bytes, s);
    var s1 := GetEffect(bytes).rest;
    ChainFactsSound(s1, s);
    var s2 := GetChainFacts(s1).rest;
    OutpointSound(s2);
    var s3 := TakeU(8, GetOutpoint(s2).rest, CorruptState).rest;
    RefundSound(s3);
    PolicySound(GetRefund(s3).rest);
  }

  lemma ScopeSound(bytes: Bytes)
    requires GetScope(bytes).Good? && GetScope(bytes).rest == []
    ensures var s := GetScope(bytes).value; Typed(s) && CanonicalBytes(s) == bytes
  {
    hide GetBody, PutBody, Take, Typed;
    var s := GetScope(bytes).value;
    WritesBack<ScopeError>();
    BodySound(bytes, s.digest);
    assert s.digest + [] == s.digest;
  }

  lemma BodySize(s: Scope, rest: Bytes)
    requires Typed(s)
    ensures |PutBody(s, rest)| == 522 + |rest|
  {
  }

  /** Every typed scope encodes to exactly the frozen size. */
  lemma CanonicalSize(s: Scope)
    requires Typed(s)
    ensures |CanonicalBytes(s)| == ACTUATION_SCOPE_BYTES
  {
    BodySize(s, s.digest);
  }

  /** Once the fields check out, the bytes are already canonical: the closing comparison cannot fail. */
  lemma ComparisonImplied(bytes: Bytes)
    requires ReadChecked(bytes).Ok?
    ensures CanonicalBytes(ReadChecked(bytes).value) == bytes && Typed(ReadChecked(bytes).value)
  {
    hide GetScope, CanonicalBytes, Typed;
    ScopeSound(bytes);
  }

  /** Reopening accepts exactly the canonical bytes of valid scopes that carry their own digest. */
  lemma ReopenExact(hash: Bytes -> Bytes, bytes: Bytes, s: Scope)
    ensures Reopen(hash, bytes) == Ok(s) <==>
      && Typed(s) && FieldsValid(s) && PolicyValid(s.policy, MAX_U64)
      && s.digest == Digest(hash, s) && bytes == CanonicalBytes(s)
  {
    hide GetScope, CanonicalBytes, Typed, FieldsValid;
    if Reopen(hash, bytes) == Ok(s) {
      ComparisonImplied(bytes);
    } else if Typed(s) && bytes == CanonicalBytes(s) {
      ScopeInverse(s);
      CanonicalSize(s);
    }
  }

  // ===== Minting

  /** The authenticated Bitcoin deployment a scope is minted from. */
  datatype ResolvedDeployment = ResolvedDeployment(profileValid: bool, network: Option<Network>,
    registry: Bytes, registryEpoch: nat, profile: Bytes, assetBinding: Bytes, chainId: Bytes, genesis: Bytes,
    challenge: Bytes, maxFeeRate: nat, minRelayFee: nat, minConfirmations: nat)

  predicate DeploymentTyped(d: ResolvedDeployment) {
    && |d.registry| == 32 && d.registryEpoch < Pow256(8) && |d.profile| == 32 && |d.assetBinding| == 32
    && |d.chainId| == 32 && |d.genesis| == 32 && d.maxFeeRate < Pow256(8) && d.minRelayFee < Pow256(8)
    && d.minConfirmations < Pow256(4)
  }

  /** What the caller asks for; the fields the deployment fixes are filled in by Authorize. */
  datatype Request = Request(deployment: ResolvedDeployment, routeId: Bytes, effectId: Bytes, leg: Leg,
    action: Action, fenceEpoch: nat, terms: Bytes, expectedTxid: Bytes, intent: Bytes,
    outpoint: Option<Outpoint>, amount: nat, refundRecord: Option<Bytes>, policy: FeePolicy, validUntil: nat)

  predicate RequestTyped(q: Request) {
    && DeploymentTyped(q.deployment) && |q.routeId| == 32 && |q.effectId| == 32 && q.fenceEpoch < Pow256(8)
    && |q.terms| == 32 && |q.expectedTxid| == 32 && |q.intent| == 32
    && (q.outpoint.Some? ==> |q.outpoint.value.txid| == 32 && q.outpoint.value.vout < Pow256(4))
    && q.amount < Pow256(8) && (q.refundRecord.Some? ==> |q.refundRecord.value| == 32)
    && q.policy.initialFee < Pow256(8) && q.policy.maximumFee < Pow256(8) && q.policy.maximumRate < Pow256(8)
    && (q.policy.changeVout.Some? ==> q.policy.changeVout.value < Pow256(4)) && q.validUntil < Pow256(8)
  }

  /** The hash of the crate and the one its Bitcoin adapter applies to a signet challenge, kept abstract. */
  datatype Digests = Digests(hash: Bytes -> Bytes, challengeDigest: Bytes -> Bytes)

  ghost predicate Wide32(d: Digests) {
    && (forall x :: |d.hash(x)| == 32) && (forall x :: |d.challengeDigest(x)| == 32)
  }

  function Mint(d: Digests, q: Request, network: Network): Scope {
    var f := q.deployment;
    var deploymentDigest := d.hash(ToAscii(DEPLOYMENT_DOMAIN)
      + (f.genesis + (f.challenge + (ToBE(f.maxFeeRate, 8) + ToBE(f.minRelayFee, 8)))));
    var s := Scope(q.routeId, q.effectId, q.leg, q.action, q.fenceEpoch, q.terms, f.registry, f.registryEpoch,
      f.profile, f.assetBinding, f.chainId, deploymentDigest, network, f.genesis, d.challengeDigest(f.challenge),
      q.expectedTxid, q.intent, q.outpoint, q.amount, q.refundRecord, q.policy, f.minConfirmations,
      q.validUntil, ZERO32);
    s.(digest := Digest(d.hash, s))
  }

  function Authorize(d: Digests, q: Request): Result<Scope, ScopeError> {
    if !q.deployment.profileValid || q.deployment.network.None? then Err(InvalidScope)
    else if !PolicyValid(q.policy, q.deployment.maxFeeRate) then Err(InvalidScope)
    else
      var s := Mint(d, q, q.deployment.network.value);
      if !FieldsValid(s) || |q.deployment.challenge| > MAX_SIGNET_CHALLENGE_BYTES then Err(InvalidScope)
      else Ok(s)
  }

  lemma DigestIgnoresDigest(hash: Bytes -> Bytes, s: Scope, x: Bytes)
    ensures Digest(hash, s.(digest := x)) == Digest(hash, s)
  {
  }

  /** The scope names what was asked for and the deployment it was asked of. */
  predicate Carries(s: Scope, q: Request) {
    && s.routeId == q.routeId && s.effectId == q.effectId && s.leg == q.leg && s.action == q.action
    && s.fenceEpoch == q.fenceEpoch && s.terms == q.terms && s.expectedTxid == q.expectedTxid && s.intent == q.intent
    && s.outpoint == q.outpoint && s.amount == q.amount && s.refundRecord == q.refundRecord && s.policy == q.policy
    && s.validUntil == q.validUntil && s.registry == q.deployment.registry && s.registryEpoch == q.deployment.registryEpoch
    && s.profile == q.deployment.profile && s.assetBinding == q.deployment.assetBinding && s.chainId == q.deployment.chainId
    && s.genesis == q.deployment.genesis && s.confirmations == q.deployment.minConfirmations
    && q.deployment.network == Some(s.network) && s.policy.maximumRate <= q.deployment.maxFeeRate
  }

  /** Every scope that can be minted carries its request, is 554 bytes long and reopens to itself. */
  lemma MintedReopens(d: Digests, q: Request)
    requires Wide32(d) && RequestTyped(q)
    requires Authorize(d, q).Ok?
    ensures Carries(Authorize(d, q).value, q)
    ensures var s := Authorize(d, q).value;
      && |CanonicalBytes(s)| == ACTUATION_SCOPE_BYTES
      && Reopen(d.hash, CanonicalBytes(s)) == Ok(s)
  {
    hide CanonicalBytes, Digest, FieldsValid, Reopen;
    Pow256Values();
    var s := Authorize(d, q).value;
    var blank := s.(digest := ZERO32);
    DigestIgnoresDigest(d.hash, blank, s.digest);
    assert s == blank.(digest := Digest(d.hash, blank));
    assert Typed(s) by { DigestWide(d, blank); }
    CanonicalSize(s);
    ReopenExact(d.hash, CanonicalBytes(s), s);
  }

  lemma DigestWide(d: Digests, s: Scope)
    requires Wide32(d)
    ensures |Digest(d.hash, s)| == 32
  {
  }

  // ===== The port-call outcome

  datatype Outcome =
    | Externalized(evidence: Bytes, firstExposure: Option<Bytes>)
    | RetryableBeforeExternalization(evidence: Bytes)
    | Unknown(evidence: Bytes)
    | ProvenNotExternalized(evidence: Bytes)
    | Pending(evidence: Bytes)
    | Final(evidence: Bytes)
    | FinalityInvalidated(priorEvidence: Bytes, reorgEvidence: Bytes)

  function OutcomeParts(o: Outcome): (Byte, Bytes, Option<Bytes>) {
    match o
    case Externalized(e, first) => (1, e, first)
    case RetryableBeforeExternalization(e) => (2, e, None)
    case Unknown(e) => (3, e, None)
    case ProvenNotExternalized(e) => (4, e, None)
    case Pending(e) => (5, e, None)
    case Final(e) => (6, e, None)
    case FinalityInvalidated(prior, reorg) => (7, prior, Some(reorg))
  }

  predicate OutcomeTyped(o: Outcome) {
    var (_, primary, secondary) := OutcomeParts(o);
    |primary| == 32 && (secondary.Some? ==> |secondary.value| == 32)
  }

  predicate OutcomeNonZero(o: Outcome) {
    var (_, primary, secondary) := OutcomeParts(o);
    primary != ZERO32 && (secondary.Some? ==> secondary.value != ZERO32)
  }

  function OutcomeBytes(o: Outcome): Bytes {
    var (tag, primary, secondary) := OutcomeParts(o);
    [tag] + (primary + (if secondary.Some? then [1] + secondary.value else [0] + Zeros(32)))
  }

  /** Every check of the decoder except the closing comparison. */
  function OutcomeChecked(b: Bytes): Result<Outcome, ScopeError> {
    if |b| != OUTCOME_BYTES then Err(CorruptState) else
    var primary, secondary := b[1..33], b[34..66];
    if primary == ZERO32 || b[33] > 1 then Err(CorruptState)
    else if b[33] == 0 && secondary == ZERO32 then
      if b[0] == 1 then Ok(Externalized(primary, None))
      else if b[0] == 2 then Ok(RetryableBeforeExternalization(primary))
      else if b[0] == 3 then Ok(Unknown(primary))
      else if b[0] == 4 then Ok(ProvenNotExternalized(primary))
      else if b[0] == 5 then Ok(Pending(primary))
      else if b[0] == 6 then Ok(Final(primary))
      else Err(CorruptState)
    else if b[33] == 1 && secondary != ZERO32 then
      if b[0] == 1 then Ok(Externalized(primary, Some(secondary)))
      else if b[0] == 7 then Ok(FinalityInvalidated(primary, secondary))
      else Err(CorruptState)
    else Err(CorruptState)
  }

  function OutcomeOf(b: Bytes): Result<Outcome, ScopeError> {
    match OutcomeChecked(b)
    case Err(e) => Err(e)
    case Ok(o) => if OutcomeBytes(o) != b then Err(CorruptState) else Ok(o)
  }

  /** The closing comparison of the outcome decoder is implied by its field checks. */
  lemma OutcomeComparisonImplied(b: Bytes)
    requires OutcomeChecked(b).Ok?
    ensures var o := OutcomeChecked(b).value; OutcomeBytes(o) == b && OutcomeTyped(o) && OutcomeNonZero(o)
  {
    var o := OutcomeChecked(b).value;
    var (tag, primary, secondary) := OutcomeParts(o);
    assert b == [b[0]] + (b[1..33] + ([b[33]] + b[34..66]));
  }

  /** The outcome codec is a bijection between 66-byte strings it accepts and non-zero outcomes. */
  lemma OutcomeExact(b: Bytes, o: Outcome)
    ensures OutcomeOf(b) == Ok(o) <==> OutcomeTyped(o) && OutcomeNonZero(o) && b == OutcomeBytes(o)
  {
    if OutcomeOf(b) == Ok(o) {
      OutcomeComparisonImplied(b);
    } else if OutcomeTyped(o) && OutcomeNonZero(o) && b == OutcomeBytes(o) {
      OutcomeInverse(o);
    }
  }

  lemma OutcomeInverse(o: Outcome)
    requires OutcomeTyped(o) && OutcomeNonZero(o)
    ensures |OutcomeBytes(o)| == OUTCOME_BYTES && OutcomeChecked(OutcomeBytes(o)) == Ok(o)
  {
    var (tag, primary, secondary) := OutcomeParts(o);
    var b := OutcomeBytes(o);
    assert b[1..33] == primary;
    assert secondary.Some? ==> b[34..66] == secondary.value;
    assert secondary.None? ==> b[34..66] == ZERO32;
  }
}
