/**
 Where every field stands in the 554 bytes of an actuation scope and in the
 66 bytes of an outcome, and which requests a scope is minted for
 (crates/btc-actuator/src/model.rs).
 */
module ScopeLayout {
  import opened Wire
  import Registry = RegistryCodec
  import opened ActuationScope

  /** The tags that stand for legs, actions and networks. */
  lemma TagValues()
    ensures LegTag(Upstream) == 1 && LegTag(Downstream) == 2
    ensures ActionTag(Funding) == 1 && ActionTag(Claim) == 2 && ActionTag(Refund) == 3
    ensures NetworkTag(Registry.BitcoinRegtest) == 1 && NetworkTag(Registry.CustomSignet) == 2 && NetworkTag(Registry.PublicSignet) == 3
  {
  }

  predicate EffectAt(m: Bytes, at: nat, s: Scope)
    requires at + 146 <= |m|
  {
    && m[at..at + 32] == s.routeId && m[at + 32..at + 64] == s.effectId && m[at + 64] == LegTag(s.leg)
    && m[at + 65] == ActionTag(s.action) && FromBE(m[at + 66..at + 74]) == s.fenceEpoch
    && m[at + 74..at + 106] == s.terms && m[at + 106..at + 138] == s.registry && FromBE(m[at + 138..at + 146]) == s.registryEpoch
  }

  lemma EffectLayout(m: Bytes, at: nat, s: Scope, rest: Bytes)
    requires Typed(s) && at <= |m| && m[at..] == PutEffect(s, rest)
    ensures at + 146 <= |m| && EffectAt(m, at, s) && m[at + 146..] == rest
  {
    hide ToBE, FromBE, Pow256, LegTag, ActionTag;
    var t7 := ToBE(s.registryEpoch, 8) + rest;
    var t6 := s.registry + t7;
    var t5 := s.terms + t6;
    var t4 := ToBE(s.fenceEpoch, 8) + t5;
    var t3 := [ActionTag(s.action)] + t4;
    var t2 := [LegTag(s.leg)] + t3;
    Peel(m, at, s.routeId, s.effectId + t2);
    Peel(m, at + 32, s.effectId, t2);
    PeelByte(m, at + 64, LegTag(s.leg), t3);
    PeelByte(m, at + 65, ActionTag(s.action), t4);
    PeelNumber(m, at + 66, s.fenceEpoch, 8, t5);
    Peel(m, at + 74, s.terms, t6);
    Peel(m, at + 106, s.registry, t7);
    PeelNumber(m, at + 138, s.registryEpoch, 8, rest);
  }

  predicate ChainFactsAt(m: Bytes, at: nat, s: Scope)
    requires at + 257 <= |m|
  {
    && m[at..at + 32] == s.profile && m[at + 32..at + 64] == s.assetBinding && m[at + 64..at + 96] == s.chainId
    && m[at + 96..at + 128] == s.deployment && m[at + 128] == NetworkTag(s.network) && m[at + 129..at + 161] == s.genesis
    && m[at + 161..at + 193] == s.challengeDigest && m[at + 193..at + 225] == s.expectedTxid && m[at + 225..at + 257] == s.intent
  }

  lemma ChainFactsLayout(m: Bytes, at: nat, s: Scope, rest: Bytes)
    requires Typed(s) && at <= |m| && m[at..] == PutChainFacts(s, rest)
    ensures at + 257 <= |m| && ChainFactsAt(m, at, s) && m[at + 257..] == rest
  {
    hide Pow256, NetworkTag;
    var t8 := s.intent + rest;
    var t7 := s.expectedTxid + t8;
    var t6 := s.challengeDigest + t7;
    var t5 := s.genesis + t6;
    var t4 := [NetworkTag(s.network)] + t5;
    var t3 := s.deployment + t4;
    var t2 := s.chainId + t3;
    Peel(m, at, s.profile, s.assetBinding + t2);
    Peel(m, at + 32, s.assetBinding, t2);
    Peel(m, at + 64, s.chainId, t3);
    Peel(m, at + 96, s.deployment, t4);
    PeelByte(m, at + 128, NetworkTag(s.network), t5);
    Peel(m, at + 129, s.genesis, t6);
    Peel(m, at + 161, s.challengeDigest, t7);
    Peel(m, at + 193, s.expectedTxid, t8);
    Peel(m, at + 225, s.intent, rest);
  }

  /** A flag, then the value, or zeros when there is none. */
  predicate OutpointAt(m: Bytes, at: nat, o: Option<Outpoint>)
    requires at + 37 <= |m|
  {
    match o
    case Some(p) => m[at] == 1 && m[at + 1..at + 33] == p.txid && FromBE(m[at + 33..at + 37]) == p.vout
    case None => forall i :: at <= i < at + 37 ==> m[i] == 0
  }

  lemma OutpointLayout(m: Bytes, at: nat, o: Option<Outpoint>, rest: Bytes)
    requires at <= |m| && m[at..] == PutOutpoint(o, rest) && (o.Some? ==> |o.value.txid| == 32 && o.value.vout < Pow256(4))
    ensures at + 37 <= |m| && OutpointAt(m, at, o) && m[at + 37..] == rest
  {
    hide ToBE, FromBE, Pow256;
    match o
    case Some(p) =>
      PeelByte(m, at, 1, p.txid + (ToBE(p.vout, 4) + rest));
      Peel(m, at + 1, p.txid, ToBE(p.vout, 4) + rest);
      PeelNumber(m, at + 33, p.vout, 4, rest);
    case None => PeelZeros(m, at, 36, rest);
  }

  predicate RefundAt(m: Bytes, at: nat, o: Option<Bytes>)
    requires at + 33 <= |m|
  {
    match o
    case Some(v) => m[at] == 1 && m[at + 1..at + 33] == v
    case None => forall i :: at <= i < at + 33 ==> m[i] == 0
  }

  lemma RefundLayout(m: Bytes, at: nat, o: Option<Bytes>, rest: Bytes)
    requires at <= |m| && m[at..] == PutRefund(o, rest) && (o.Some? ==> |o.value| == 32)
    ensures at + 33 <= |m| && RefundAt(m, at, o) && m[at + 33..] == rest
  {
    match o
    case Some(v) =>
      PeelByte(m, at, 1, v + rest);
      Peel(m, at + 1, v, rest);
    case None => PeelZeros(m, at, 32, rest);
  }

  predicate PolicyAt(m: Bytes, at: nat, p: FeePolicy)
    requires at + 29 <= |m|
  {
    && FromBE(m[at..at + 8]) == p.initialFee && FromBE(m[at + 8..at + 16]) == p.maximumFee
    && FromBE(m[at + 16..at + 24]) == p.maximumRate
    && match p.changeVout
       case Some(v) => m[at + 24] == 1 && FromBE(m[at + 25..at + 29]) == v
       case None => forall i :: at + 24 <= i < at + 29 ==> m[i] == 0
  }

  lemma PolicyLayout(m: Bytes, at: nat, p: FeePolicy, rest: Bytes)
    requires p.initialFee < Pow256(8) && p.maximumFee < Pow256(8) && p.maximumRate < Pow256(8)
    requires (p.changeVout.Some? ==> p.changeVout.value < Pow256(4)) && at <= |m| && m[at..] == PutPolicy(p, rest)
    ensures at + 29 <= |m| && PolicyAt(m, at, p) && m[at + 29..] == rest
  {
    hide ToBE, FromBE, Pow256;
    var change := PutChange(p.changeVout, rest);
    PeelNumber(m, at, p.initialFee, 8, ToBE(p.maximumFee, 8) + (ToBE(p.maximumRate, 8) + change));
    PeelNumber(m, at + 8, p.maximumFee, 8, ToBE(p.maximumRate, 8) + change);
    PeelNumber(m, at + 16, p.maximumRate, 8, change);
    match p.changeVout
    case Some(v) =>
      PeelByte(m, at + 24, 1, ToBE(v, 4) + rest);
      PeelNumber(m, at + 25, v, 4, rest);
    case None => PeelZeros(m, at + 24, 4, rest);
  }

  predicate MoneyAt(m: Bytes, at: nat, s: Scope)
    requires at + 119 <= |m|
  {
    && OutpointAt(m, at, s.outpoint) && FromBE(m[at + 37..at + 45]) == s.amount && RefundAt(m, at + 45, s.refundRecord)
    && PolicyAt(m, at + 78, s.policy) && FromBE(m[at + 107..at + 111]) == s.confirmations
    && FromBE(m[at + 111..at + 119]) == s.validUntil
  }

  lemma MoneyLayout(m: Bytes, at: nat, s: Scope, rest: Bytes)
    requires Typed(s) && at <= |m| && m[at..] == PutMoney(s, rest)
    ensures at + 119 <= |m| && MoneyAt(m, at, s) && m[at + 119..] == rest
  {
    hide ToBE, FromBE, Pow256, PutOutpoint, PutRefund, PutPolicy, OutpointAt, RefundAt, PolicyAt;
    var t4 := ToBE(s.confirmations, 4) + (ToBE(s.validUntil, 8) + rest);
    var t3 := PutPolicy(s.policy, t4);
    var t2 := PutRefund(s.refundRecord, t3);
    OutpointLayout(m, at, s.outpoint, ToBE(s.amount, 8) + t2);
    PeelNumber(m, at + 37, s.amount, 8, t2);
    RefundLayout(m, at + 45, s.refundRecord, t3);
    PolicyLayout(m, at + 78, s.policy, t4);
    PeelNumber(m, at + 107, s.confirmations, 4, ToBE(s.validUntil, 8) + rest);
    PeelNumber(m, at + 111, s.validUntil, 8, rest);
  }

  /** Effect, chain facts and money stand at 0, 146 and 403, and the digest, over everything before it, at 522. */
  lemma BytesLayout(s: Scope)
    requires Typed(s)
    ensures var m := CanonicalBytes(s);
      && |m| == 554 && EffectAt(m, 0, s) && ChainFactsAt(m, 146, s) && MoneyAt(m, 403, s) && m[522..] == s.digest
      && DigestPreimage(s) == ToAscii("DOM-INTEROP/BTC-ACTUATOR/SCOPE/V1\0") + m[..522]
  {
    hide PutEffect, PutChainFacts, PutMoney, EffectAt, ChainFactsAt, MoneyAt, ToAscii;
    var m := CanonicalBytes(s);
    TypedDigest(s);
    assert m[0..] == m;
    EffectLayout(m, 0, s, PutChainFacts(s, PutMoney(s, s.digest)));
    ChainFactsLayout(m, 146, s, PutMoney(s, s.digest));
    MoneyLayout(m, 403, s, s.digest);
    BodyBefore(s, s.digest);
    assert m == PutBody(s, []) + s.digest;
    assert m[..522] == PutBody(s, []);
  }

  lemma TypedDigest(s: Scope)
    requires Typed(s)
    ensures |s.digest| == 32
  {
  }

  lemma BodyBefore(s: Scope, rest: Bytes)
    ensures PutBody(s, rest) == PutBody(s, []) + rest
  {
    hide ToBE, Zeros, LegTag, ActionTag, NetworkTag;
    ChangeBefore(s.policy.changeVout, ToBE(s.confirmations, 4) + (ToBE(s.validUntil, 8) + []), rest);
    MoneyBefore(s, rest);
    FactsBefore(s, PutMoney(s, []), rest);
    EffectBefore(s, PutChainFacts(s, PutMoney(s, [])), rest);
  }

  lemma ChangeBefore(o: Option<nat>, x: Bytes, rest: Bytes)
    ensures PutChange(o, x + rest) == PutChange(o, x) + rest
  {
  }

  lemma PolicyBefore(p: FeePolicy, x: Bytes, rest: Bytes)
    ensures PutPolicy(p, x + rest) == PutPolicy(p, x) + rest
  {
    hide ToBE, PutChange;
    ChangeBefore(p.changeVout, x, rest);
  }

  lemma RefundBefore(o: Option<Bytes>, x: Bytes, rest: Bytes)
    ensures PutRefund(o, x + rest) == PutRefund(o, x) + rest
  {
  }

  lemma OutpointBefore(o: Option<Outpoint>, x: Bytes, rest: Bytes)
    ensures PutOutpoint(o, x + rest) == PutOutpoint(o, x) + rest
  {
    hide ToBE, Zeros;
    match o
    case Some(p) =>
      Joins(ToBE(p.vout, 4), x, rest);
      Joins(p.txid, ToBE(p.vout, 4) + x, rest);
      Joins([1], p.txid + (ToBE(p.vout, 4) + x), rest);
    case None =>
      Joins(Zeros(36), x, rest);
      Joins([0], Zeros(36) + x, rest);
  }

  lemma Joins(a: Bytes, x: Bytes, rest: Bytes)
    ensures a + (x + rest) == (a + x) + rest
  {
  }

  lemma MoneyBefore(s: Scope, rest: Bytes)
    ensures PutMoney(s, rest) == PutMoney(s, []) + rest
  {
    hide ToBE, PutOutpoint, PutRefund, PutPolicy;
    var a := ToBE(s.confirmations, 4) + (ToBE(s.validUntil, 8) + []);
    assert ToBE(s.confirmations, 4) + (ToBE(s.validUntil, 8) + rest) == a + rest;
    PolicyBefore(s.policy, a, rest);
    RefundBefore(s.refundRecord, PutPolicy(s.policy, a), rest);
    var b := ToBE(s.amount, 8) + PutRefund(s.refundRecord, PutPolicy(s.policy, a));
    assert ToBE(s.amount, 8) + (PutRefund(s.refundRecord, PutPolicy(s.policy, a)) + rest) == b + rest;
    OutpointBefore(s.outpoint, b, rest);
  }

  lemma FactsBefore(s: Scope, x: Bytes, rest: Bytes)
    ensures PutChainFacts(s, x + rest) == PutChainFacts(s, x) + rest
  {
    hide NetworkTag;
  }

  lemma EffectBefore(s: Scope, x: Bytes, rest: Bytes)
    ensures PutEffect(s, x + rest) == PutEffect(s, x) + rest
  {
    hide ToBE, LegTag, ActionTag;
  }

  // ===== Minting

  predicate NonZero(x: Bytes) {
    x != ZERO32
  }

  /** A scope is minted exactly for such requests. */
  lemma AuthorizeExact(d: Digests, q: Request)
    ensures Authorize(d, q).Ok? <==>
      && q.deployment.profileValid && q.deployment.network.Some? && |q.deployment.challenge| <= 10_000
      && 0 < q.policy.initialFee <= q.policy.maximumFee && 0 < q.policy.maximumRate <= q.deployment.maxFeeRate
      && NonZero(q.routeId) && NonZero(q.effectId) && NonZero(q.terms) && NonZero(q.expectedTxid) && NonZero(q.intent)
      && NonZero(q.deployment.registry) && NonZero(q.deployment.profile) && NonZero(q.deployment.assetBinding)
      && NonZero(q.deployment.chainId) && NonZero(q.deployment.genesis)
      && q.fenceEpoch > 0 && q.deployment.registryEpoch > 0 && 0 < q.amount <= 2_100_000_000_000_000
      && q.deployment.minConfirmations > 0 && q.validUntil > 0
      && (q.action == Funding <==> q.outpoint.None?)
      && (q.action == Funding ==> q.refundRecord.Some? && NonZero(q.refundRecord.value))
  {
  }

  /** The digests a minted scope carries: of the deployment's own facts, of its challenge, and of the scope's first 522 bytes. */
  lemma MintedDigests(d: Digests, q: Request)
    requires Wide32(d) && RequestTyped(q) && Authorize(d, q).Ok?
    ensures var s := Authorize(d, q).value; var f := q.deployment;
      && s.deployment == d.hash(ToAscii("DOM-INTEROP/BTC-ACTUATOR/DEPLOYMENT/V1\0")
           + (f.genesis + (f.challenge + (ToBE(f.maxFeeRate, 8) + ToBE(f.minRelayFee, 8)))))
      && s.challengeDigest == d.challengeDigest(f.challenge) && |CanonicalBytes(s)| == 554
      && s.digest == d.hash(ToAscii("DOM-INTEROP/BTC-ACTUATOR/SCOPE/V1\0") + CanonicalBytes(s)[..522])
  {
    hide CanonicalBytes, FieldsValid, Reopen, ToAscii, ToBE, DigestPreimage, PolicyValid;
    MintedReopens(d, q);
    var s := Authorize(d, q).value;
    ReopenExact(d.hash, CanonicalBytes(s), s);
    BytesLayout(s);
  }

  // ===== Outcomes

  /** Tag, primary digest, flag, secondary digest or zeros. */
  lemma OutcomeLayout(o: Outcome)
    requires OutcomeTyped(o)
    ensures var b := OutcomeBytes(o);
      && |b| == 66
      && match o
         case Externalized(e, first) =>
           b[0] == 1 && b[1..33] == e
           && (if first.Some? then b[33] == 1 && b[34..66] == first.value else b[33] == 0 && b[34..66] == ZERO32)
         case RetryableBeforeExternalization(e) => b[0] == 2 && b[1..33] == e && b[33] == 0 && b[34..66] == ZERO32
         case Unknown(e) => b[0] == 3 && b[1..33] == e && b[33] == 0 && b[34..66] == ZERO32
         case ProvenNotExternalized(e) => b[0] == 4 && b[1..33] == e && b[33] == 0 && b[34..66] == ZERO32
         case Pending(e) => b[0] == 5 && b[1..33] == e && b[33] == 0 && b[34..66] == ZERO32
         case Final(e) => b[0] == 6 && b[1..33] == e && b[33] == 0 && b[34..66] == ZERO32
         case FinalityInvalidated(p, r) => b[0] == 7 && b[1..33] == p && b[33] == 1 && b[34..66] == r
  {
    var b := OutcomeBytes(o);
    var (_, primary, secondary) := OutcomeParts(o);
    assert b[1..33] == primary;
    if secondary.Some? {
      assert b[34..66] == secondary.value;
    } else {
      assert b[34..66] == ZERO32;
    }
  }
}
