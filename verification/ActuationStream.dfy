/**
 The scope codec as the program performs it: fields appended to a growing
 buffer, and a decoder whose offset moves over the bytes.
 */
module ActuationStream {
  import opened Wire
  import Registry = RegistryCodec
  import opened ActuationScope

  // ===== Writing

  method AppendEffect(w: Buffer, s: Scope, ghost todo: Bytes)
    modifies w
    ensures w.out + todo == old(w.out) + PutEffect(s, todo)
  {
    hide ToBE;
    ghost var t8 := ToBE(s.registryEpoch, 8) + todo;
    ghost var t7 := s.registry + t8;
    ghost var t6 := s.terms + t7;
    ghost var t5 := ToBE(s.fenceEpoch, 8) + t6;
    ghost var t4 := [ActionTag(s.action)] + t5;
    ghost var t3 := [LegTag(s.leg)] + t4;
    w.Extend(s.routeId, s.effectId + t3);
    w.Extend(s.effectId, t3);
    w.Extend([LegTag(s.leg)], t4);
    w.Extend([ActionTag(s.action)], t5);
    w.Extend(ToBE(s.fenceEpoch, 8), t6);
    w.Extend(s.terms, t7);
    w.Extend(s.registry, t8);
    w.Extend(ToBE(s.registryEpoch, 8), todo);
  }

  method AppendChainFacts(w: Buffer, s: Scope, ghost todo: Bytes)
    modifies w
    ensures w.out + todo == old(w.out) + PutChainFacts(s, todo)
  {
    ghost var t9 := s.intent + todo;
    ghost var t8 := s.expectedTxid + t9;
    ghost var t7 := s.challengeDigest + t8;
    ghost var t6 := s.genesis + t7;
    ghost var t5 := [NetworkTag(s.network)] + t6;
    ghost var t4 := s.deployment + t5;
    ghost var t3 := s.chainId + t4;
    w.Extend(s.profile, s.assetBinding + t3);
    w.Extend(s.assetBinding, t3);
    w.Extend(s.chainId, t4);
    w.Extend(s.deployment, t5);
    w.Extend([NetworkTag(s.network)], t6);
    w.Extend(s.genesis, t7);
    w.Extend(s.challengeDigest, t8);
    w.Extend(s.expectedTxid, t9);
    w.Extend(s.intent, todo);
  }

  method AppendOutpoint(w: Buffer, o: Option<Outpoint>, ghost todo: Bytes)
    modifies w
    ensures w.out + todo == old(w.out) + PutOutpoint(o, todo)
  {
    hide ToBE;
    match o
    case Some(p) =>
      w.Extend([1], p.txid + (ToBE(p.vout, 4) + todo));
      w.Extend(p.txid, ToBE(p.vout, 4) + todo);
      w.Extend(ToBE(p.vout, 4), todo);
    case None =>
      w.Extend([0], Zeros(36) + todo);
      w.Extend(Zeros(36), todo);
  }

  method AppendRefund(w: Buffer, o: Option<Bytes>, ghost todo: Bytes)
    modifies w
    ensures w.out + todo == old(w.out) + PutRefund(o, todo)
  {
    match o
    case Some(v) =>
      w.Extend([1], v + todo);
      w.Extend(v, todo);
    case None =>
      w.Extend([0], Zeros(32) + todo);
      w.Extend(Zeros(32), todo);
  }

  method AppendPolicy(w: Buffer, p: FeePolicy, ghost todo: Bytes)
    modifies w
    ensures w.out + todo == old(w.out) + PutPolicy(p, todo)
  {
    hide ToBE;
    ghost var t4 := PutChange(p.changeVout, todo);
    ghost var t3 := ToBE(p.maximumRate, 8) + t4;
    w.Extend(ToBE(p.initialFee, 8), ToBE(p.maximumFee, 8) + t3);
    w.Extend(ToBE(p.maximumFee, 8), t3);
    w.Extend(ToBE(p.maximumRate, 8), t4);
    match p.changeVout
    case Some(v) =>
      w.Extend([1], ToBE(v, 4) + todo);
      w.Extend(ToBE(v, 4), todo);
    case None =>
      w.Extend([0], Zeros(4) + todo);
      w.Extend(Zeros(4), todo);
  }

  /** Every field but the digest, appended in order. */
  method AppendBody(w: Buffer, s: Scope, ghost todo: Bytes)
    modifies w
    ensures w.out + todo == old(w.out) + PutBody(s, todo)
  {
    hide ToBE, PutEffect, PutChainFacts, PutOutpoint, PutRefund, PutPolicy;
    ghost var t6 := ToBE(s.validUntil, 8) + todo;
    ghost var t5 := ToBE(s.confirmations, 4) + t6;
    ghost var t4 := PutPolicy(s.policy, t5);
    ghost var t3 := PutRefund(s.refundRecord, t4);
    ghost var t2 := ToBE(s.amount, 8) + t3;
    ghost var t1 := PutOutpoint(s.outpoint, t2);
    AppendEffect(w, s, PutChainFacts(s, t1));
    AppendChainFacts(w, s, t1);
    AppendOutpoint(w, s.outpoint, t2);
    w.Extend(ToBE(s.amount, 8), t3);
    AppendRefund(w, s.refundRecord, t4);
    AppendPolicy(w, s.policy, t5);
    w.Extend(ToBE(s.confirmations, 4), t6);
    w.Extend(ToBE(s.validUntil, 8), todo);
  }

  method EncodeScope(s: Scope) returns (bytes: Bytes)
    ensures bytes == CanonicalBytes(s)
    ensures Typed(s) ==> |bytes| == ACTUATION_SCOPE_BYTES
  {
    hide PutBody, Typed;
    var w := new Buffer();
    AppendBody(w, s, s.digest);
    w.Extend(s.digest, []);
    assert w.out == w.out + [] && s.digest == s.digest + [];
    bytes := w.out;
    if Typed(s) {
      CanonicalSize(s);
    }
  }

  // ===== Reading

  method ReadZeros(c: Cursor, n: nat) returns (r: Result<(), ScopeError>)
    requires c.Valid()
    modifies c
    ensures c.Valid() && Follows(r, c.Rest(), GetZeros(n, old(c.Rest())))
  {
    hide Take;
    var z :- c.TakeBytes(n, CorruptState);
    r := if z == Zeros(n) then Ok(()) else Err(CorruptState);
  }

  method ReadEffect(c: Cursor) returns (r: Result<Effect, ScopeError>)
    requires c.Valid()
    modifies c
    ensures c.Valid() && Follows(r, c.Rest(), GetEffect(old(c.Rest())))
  {
    hide Take, TakeU, TakeU8;
    var routeId :- c.TakeBytes(32, CorruptState);
    var effectId :- c.TakeBytes(32, CorruptState);
    var leg :- c.ReadU8(CorruptState);
    if leg != 1 && leg != 2 {
      return Err(CorruptState);
    }
    var action :- c.ReadU8(CorruptState);
    if action < 1 || action > 3 {
      return Err(CorruptState);
    }
    var fence :- c.ReadU(8, CorruptState);
    var terms :- c.TakeBytes(32, CorruptState);
    var registry :- c.TakeBytes(32, CorruptState);
    var epoch :- c.ReadU(8, CorruptState);
    r := Ok(Effect(routeId, effectId, if leg == 1 then Upstream else Downstream,
      if action == 1 then Funding else if action == 2 then Claim else Refund, fence, terms, registry, epoch));
  }

  method ReadChainFacts(c: Cursor) returns (r: Result<ChainFacts, ScopeError>)
    requires c.Valid()
    modifies c
    ensures c.Valid() && Follows(r, c.Rest(), GetChainFacts(old(c.Rest())))
  {
    hide Take, TakeU8;
    var profile :- c.TakeBytes(32, CorruptState);
    var binding :- c.TakeBytes(32, CorruptState);
    var chainId :- c.TakeBytes(32, CorruptState);
    var deployment :- c.TakeBytes(32, CorruptState);
    var network :- c.ReadU8(CorruptState);
    if network < 1 || network > 3 {
      return Err(CorruptState);
    }
    var genesis :- c.TakeBytes(32, CorruptState);
    var challenge :- c.TakeBytes(32, CorruptState);
    var txid :- c.TakeBytes(32, CorruptState);
    var intent :- c.TakeBytes(32, CorruptState);
    r := Ok(ChainFacts(profile, binding, chainId, deployment,
      if network == 1 then Registry.BitcoinRegtest else if network == 2 then Registry.CustomSignet
      else Registry.PublicSignet,
      genesis, challenge, txid, intent));
  }

  method ReadOutpoint(c: Cursor) returns (r: Result<Option<Outpoint>, ScopeError>)
    requires c.Valid()
    modifies c
    ensures c.Valid() && Follows(r, c.Rest(), GetOutpoint(old(c.Rest())))
  {
    hide Take, TakeU, TakeU8, GetZeros;
    var tag :- c.ReadU8(CorruptState);
    if tag == 0 {
      var _ :- ReadZeros(c, 36);
      return Ok(None);
    } else if tag == 1 {
      var txid :- c.TakeBytes(32, CorruptState);
      var vout :- c.ReadU(4, CorruptState);
      return Ok(Some(Outpoint(txid, vout)));
    }
    r := Err(CorruptState);
  }

  method ReadRefund(c: Cursor) returns (r: Result<Option<Bytes>, ScopeError>)
    requires c.Valid()
    modifies c
    ensures c.Valid() && Follows(r, c.Rest(), GetRefund(old(c.Rest())))
  {
    hide Take, TakeU8, GetZeros;
    var tag :- c.ReadU8(CorruptState);
    if tag == 0 {
      var _ :- ReadZeros(c, 32);
      return Ok(None);
    } else if tag == 1 {
      var v :- c.TakeBytes(32, CorruptState);
      return Ok(Some(v));
    }
    r := Err(CorruptState);
  }

  method ReadChange(c: Cursor) returns (r: Result<Option<nat>, ScopeError>)
    requires c.Valid()
    modifies c
    ensures c.Valid() && Follows(r, c.Rest(), GetChange(old(c.Rest())))
  {
    hide TakeU, TakeU8, GetZeros;
    var tag :- c.ReadU8(CorruptState);
    if tag == 0 {
      var _ :- ReadZeros(c, 4);
      return Ok(None);
    } else if tag == 1 {
      var v :- c.ReadU(4, CorruptState);
      return Ok(Some(v));
    }
    r := Err(CorruptState);
  }

  method ReadPolicy(c: Cursor) returns (r: Result<FeePolicy, ScopeError>)
    requires c.Valid()
    modifies c
    ensures c.Valid() && Follows(r, c.Rest(), GetPolicy(old(c.Rest())))
  {
    hide TakeU, GetChange;
    var initialFee :- c.ReadU(8, CorruptState);
    var maximumFee :- c.ReadU(8, CorruptState);
    var maximumRate :- c.ReadU(8, CorruptState);
    var change :- ReadChange(c);
    r := Ok(FeePolicy(initialFee, maximumFee, maximumRate, change));
  }

  method ReadBody(c: Cursor) returns (r: Result<Scope, ScopeError>)
    requires c.Valid()
    modifies c
    ensures c.Valid() && Follows(r, c.Rest(), GetBody(old(c.Rest())))
  {
    hide Take, TakeU, GetEffect, GetChainFacts, GetOutpoint, GetRefund, GetPolicy;
    var e :- ReadEffect(c);
    var f :- ReadChainFacts(c);
    var outpoint :- ReadOutpoint(c);
    var amount :- c.ReadU(8, CorruptState);
    var refund :- ReadRefund(c);
    var policy :- ReadPolicy(c);
    var confirmations :- c.ReadU(4, CorruptState);
    var validUntil :- c.ReadU(8, CorruptState);
    r := Ok(Scope(e.routeId, e.effectId, e.leg, e.action, e.fenceEpoch, e.terms, e.registry, e.registryEpoch,
      f.profile, f.assetBinding, f.chainId, f.deployment, f.network, f.genesis, f.challengeDigest,
      f.expectedTxid, f.intent, outpoint, amount, refund, policy, confirmations, validUntil, []));
  }

  method ReadScope(c: Cursor) returns (r: Result<Scope, ScopeError>)
    requires c.Valid()
    modifies c
    ensures c.Valid() && Follows(r, c.Rest(), GetScope(old(c.Rest())))
  {
    hide Take, GetBody;
    var scope :- ReadBody(c);
    var digest :- c.TakeBytes(32, CorruptState);
    r := Ok(scope.(digest := digest));
  }

  /** Reopening a stored scope accepts exactly the bytes some valid scope encodes to. */
  method DecodeScope(hash: Bytes -> Bytes, bytes: Bytes) returns (r: Result<Scope, ScopeError>)
    ensures r == Reopen(hash, bytes)
    ensures forall s :: r == Ok(s) <==>
      && Typed(s) && FieldsValid(s) && PolicyValid(s.policy, MAX_U64)
      && s.digest == Digest(hash, s) && bytes == CanonicalBytes(s)
  {
    hide Typed, FieldsValid, PolicyValid, Digest, CanonicalBytes, GetScope, ToAscii;
    forall s
      ensures Reopen(hash, bytes) == Ok(s) <==>
        && Typed(s) && FieldsValid(s) && PolicyValid(s.policy, MAX_U64)
        && s.digest == Digest(hash, s) && bytes == CanonicalBytes(s)
    {
      ReopenExact(hash, bytes, s);
    }
    if |bytes| != ACTUATION_SCOPE_BYTES {
      return Err(CorruptState);
    }
    var c := new Cursor(bytes);
    var s :- ReadScope(c);
    if c.position != |bytes| || !FieldsValid(s) || !PolicyValid(s.policy, MAX_U64) {
      return Err(CorruptState);
    }
    var again := EncodeScope(s);
    if Digest(hash, s) != s.digest || again != bytes {
      return Err(CorruptState);
    }
    r := Ok(s);
  }
}
