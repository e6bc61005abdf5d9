/**
 Where every field stands in the byte strings a claim session hashes
 (crates/btc-actuator/src/signer.rs, crates/adapters/btc/src/codec.rs).
 */
module ClaimLayout {
  import opened Wire
  import opened ActuationScope
  import opened ClaimSession

  // ===== The claim a session stands for

  /** The frozen claim spends the funded contract output whole: to the destination, but for the fee. */
  lemma ClaimPays(k: Crypto, s: Session)
    requires BuildContext(k, s).Some?
    ensures var t := BuildContext(k, s).value.template;
      && t.network == s.network && t.txid == s.fundingTxid && t.vout == s.fundingVout
      && t.prevScript == s.contractScript && k.contractScript(s.roster, s.refundKey, s.refundDelay) == Some(t.prevScript)
      && t.prevAmount == s.amount == t.amount + s.fee && 0 < t.amount < s.amount && t.script == s.destinationScript
      && k.templateHash(t) == Some(s.expectedTemplate) && BuildContext(k, s).value.templateHash == s.expectedTemplate
      && k.sighash(t) == Some(BuildContext(k, s).value.sighash)
  {
  }

  /** What every session with a digest brings: two different participants with their keys, named parts, bounded amounts and scripts. */
  lemma ContextMeans(k: Crypto, s: Session)
    requires BuildContext(k, s).Some?
    ensures var a, b := s.roster.first, s.roster.second;
      && s.roster.version == 1 && a.id != b.id && {a.role, b.role} == {Maker, Taker} && a.key != b.key
      && a.key != [] && b.key != [] && a.key[0] in {2, 3} && b.key[0] in {2, 3}
    ensures ZERO32 !in {s.routeId, s.effectId, s.settlementId, s.sessionId, s.terms, s.registry, s.profile, s.deployment}
    ensures ZERO32 !in {s.fundingTxid, s.expectedTemplate} && s.fenceEpoch > 0 && k.isPoint(s.adaptorPoint)
    ensures 1 <= s.fee < s.amount <= 2_100_000_000_000_000
    ensures 1 <= |s.contractScript| <= 10_000 && 1 <= |s.destinationScript| <= 10_000
  {
  }

  /** BIP 68: the low sixteen bits hold the delay, bit 22 says whether it counts time. */
  lemma CsvMeaning(d: Delay)
    requires d.value < 0x1_0000
    ensures CsvSequence(d) % 0x1_0000 == d.value && (CsvSequence(d) / 0x40_0000 % 2 == 1 <==> d.Time512s?)
  {
  }

  // ===== The session preimage

  /** The pinned digests, the network and the roster hash, wherever they start. */
  lemma PinsLayout(s: Session, m: Bytes, a: nat, rosterHash: Bytes, rest: Bytes)
    requires |s.registry| == |s.profile| == |s.deployment| == |rosterHash| == 32 && a <= |m|
    requires m[a..] == s.registry + (s.profile + (s.deployment + ([NetworkTag(s.network)] + (rosterHash + rest))))
    ensures |m| == a + 129 + |rest|
    ensures m[a..a + 32] == s.registry && m[a + 32..a + 64] == s.profile && m[a + 64..a + 96] == s.deployment
    ensures m[a + 96] == NetworkTag(s.network) && m[a + 97..a + 129] == rosterHash && m[a + 129..] == rest
  {
    hide NetworkTag;
    var t := [NetworkTag(s.network)] + (rosterHash + rest);
    Peel(m, a, s.registry, s.profile + (s.deployment + t));
    Peel(m, a + 32, s.profile, s.deployment + t);
    Peel(m, a + 64, s.deployment, t);
    Peel(m, a + 96, [NetworkTag(s.network)], rosterHash + rest);
    assert m[a + 96..a + 97] == [m[a + 96]];
    Peel(m, a + 97, rosterHash, rest);
  }

  lemma IdentityLayout(s: Session, rosterHash: Bytes, rest: Bytes)
    requires SessionTyped(s) && |rosterHash| == 32
    ensures var m := PutIdentity(s, rosterHash, rest); var a := if s.routeTerms.Some? then 192 else 160;
      && |m| == a + 129 + |rest|
      && m[..32] == s.routeId && m[32..64] == s.effectId && m[64..96] == s.settlementId && m[96..128] == s.sessionId
      && m[128..160] == s.terms && (s.routeTerms.Some? ==> m[160..192] == s.routeTerms.value)
      && m[a..a + 32] == s.registry && m[a + 32..a + 64] == s.profile && m[a + 64..a + 96] == s.deployment
      && m[a + 96] == NetworkTag(s.network) && m[a + 97..a + 129] == rosterHash && m[a + 129..] == rest
  {
    hide RosterTyped, Pow256, NetworkTag;
    var m := PutIdentity(s, rosterHash, rest);
    var pins := s.registry + (s.profile + (s.deployment + ([NetworkTag(s.network)] + (rosterHash + rest))));
    var t := PutRouteTerms(s.routeTerms, pins);
    Peel(m, 0, s.routeId, s.effectId + (s.settlementId + (s.sessionId + (s.terms + t))));
    Peel(m, 32, s.effectId, s.settlementId + (s.sessionId + (s.terms + t)));
    Peel(m, 64, s.settlementId, s.sessionId + (s.terms + t));
    Peel(m, 96, s.sessionId, s.terms + t);
    Peel(m, 128, s.terms, t);
    if s.routeTerms.Some? {
      Peel(m, 160, s.routeTerms.value, pins);
      PinsLayout(s, m, 192, rosterHash, rest);
    } else {
      PinsLayout(s, m, 160, rosterHash, rest);
    }
  }

  lemma ContractLayout(s: Session, rest: Bytes)
    requires SessionTyped(s)
    ensures var m := PutContract(s, rest); var a := 48 + |s.contractScript|;
      && |m| == a + 36 + |rest|
      && m[..32] == s.fundingTxid && FromBE(m[32..36]) == s.fundingVout && FromBE(m[36..44]) == s.amount
      && FromBE(m[44..48]) == |s.contractScript| && m[48..a] == s.contractScript
      && m[a..a + 32] == s.refundKey && FromBE(m[a + 32..a + 36]) == CsvSequence(s.refundDelay) && m[a + 36..] == rest
  {
    hide RosterTyped, Pow256, ToBE, FromBE, CsvSequence;
    CsvInjective(s.refundDelay, s.refundDelay);
    ToBERoundTrip(s.fundingVout, 4);
    ToBERoundTrip(s.amount, 8);
    ToBERoundTrip(|s.contractScript|, 4);
    ToBERoundTrip(CsvSequence(s.refundDelay), 4);
    var m, a := PutContract(s, rest), 48 + |s.contractScript|;
    var t6 := ToBE(CsvSequence(s.refundDelay), 4) + rest;
    var t5 := s.refundKey + t6;
    var t4 := s.contractScript + t5;
    var t3 := ToBE(|s.contractScript|, 4) + t4;
    var t2 := ToBE(s.amount, 8) + t3;
    Peel(m, 0, s.fundingTxid, ToBE(s.fundingVout, 4) + t2);
    Peel(m, 32, ToBE(s.fundingVout, 4), t2);
    Peel(m, 36, ToBE(s.amount, 8), t3);
    Peel(m, 44, ToBE(|s.contractScript|, 4), t4);
    Peel(m, 48, s.contractScript, t5);
    Peel(m, a, s.refundKey, t6);
    Peel(m, a + 32, ToBE(CsvSequence(s.refundDelay), 4), rest);
  }

  lemma SpendLayout(s: Session, sighash: Bytes)
    requires SessionTyped(s)
    ensures var m := PutSpend(s, sighash); var a := 4 + |s.destinationScript|;
      && |m| == a + 77 + |sighash|
      && FromBE(m[..4]) == |s.destinationScript| && m[4..a] == s.destinationScript && FromBE(m[a..a + 8]) == s.fee
      && m[a + 8..a + 40] == s.expectedTemplate && m[a + 40..a + 73] == s.adaptorPoint
      && FromBE(m[a + 73..a + 77]) == s.attempt && m[a + 77..] == sighash
  {
    hide RosterTyped, Pow256, ToBE, FromBE;
    ToBERoundTrip(|s.destinationScript|, 4);
    ToBERoundTrip(s.fee, 8);
    ToBERoundTrip(s.attempt, 4);
    var m, a := PutSpend(s, sighash), 4 + |s.destinationScript|;
    var t5 := ToBE(s.attempt, 4) + sighash;
    var t4 := s.adaptorPoint + t5;
    var t3 := s.expectedTemplate + t4;
    var t2 := ToBE(s.fee, 8) + t3;
    Peel(m, 0, ToBE(|s.destinationScript|, 4), s.destinationScript + t2);
    Peel(m, 4, s.destinationScript, t2);
    Peel(m, a, ToBE(s.fee, 8), t3);
    Peel(m, a + 8, s.expectedTemplate, t4);
    Peel(m, a + 40, s.adaptorPoint, t5);
    Peel(m, a + 73, ToBE(s.attempt, 4), sighash);
  }

  /** The session digest hashes its domain, the identity, the contract and the spend, in this order. */
  lemma SessionLayout(k: Crypto, s: Session)
    requires Wide(k.hash) && SessionTyped(s) && SessionDigest(k, s).Some?
    ensures BuildContext(k, s).Some?
    ensures var c := BuildContext(k, s).value; var d := ToAscii(if s.routeTerms.Some?
        then "DOM-INTEROP/BTC-ACTUATOR/CLAIM-SESSION/V11\0" else "DOM-INTEROP/BTC-ACTUATOR/CLAIM-SESSION/V1\0");
      var spend := PutSpend(s, c.sighash); var contract := PutContract(s, spend);
      SessionDigest(k, s) == Some(k.hash(d + PutIdentity(s, k.hash(RosterPreimage(s.roster)), contract)))
  {
    hide ToAscii, PutIdentity, PutContract, PutSpend, RosterPreimage, BuildContext, SessionTyped;
  }

  lemma RosterLayout(r: Roster)
    requires RosterTyped(r)
    ensures var m := RosterPreimage(r); var a := |ToAscii("DOM-INTEROP/BTC/F5/V1/ROSTER\0")|;
      && |m| == a + 144
      && m[..a] == ToAscii("DOM-INTEROP/BTC/F5/V1/ROSTER\0") && m[a..a + 6] == ToAscii("DOMBTC")
      && FromBE(m[a + 6..a + 8]) == 1 && FromBE(m[a + 8..a + 10]) == 2 && FromBE(m[a + 10..a + 12]) == r.version
      && m[a + 12..a + 44] == r.first.id && m[a + 44] == RoleTag(r.first.role) && m[a + 45..a + 78] == r.first.key
      && m[a + 78..a + 110] == r.second.id && m[a + 110] == RoleTag(r.second.role) && m[a + 111..] == r.second.key
  {
    hide ToAscii, ToBE, FromBE, Pow256, PutParticipant, RoleTag;
    var m, a := RosterPreimage(r), |ToAscii(ROSTER_DOMAIN)|;
    RosterHeader(r);
    ParticipantLayout(m, a + 12, r.first, PutParticipant(r.second, []));
    ParticipantLayout(m, a + 78, r.second, []);
    assert m[a + 111..a + 144] == m[a + 111..];
  }

  lemma RosterHeader(r: Roster)
    requires RosterTyped(r)
    ensures var m := RosterPreimage(r); var a := |ToAscii(ROSTER_DOMAIN)|;
      && |m| >= a + 12 && m[..a] == ToAscii(ROSTER_DOMAIN) && m[a..a + 6] == ToAscii("DOMBTC")
      && FromBE(m[a + 6..a + 8]) == 1 && FromBE(m[a + 8..a + 10]) == 2 && FromBE(m[a + 10..a + 12]) == r.version
      && m[a + 12..] == PutParticipant(r.first, PutParticipant(r.second, []))
  {
    hide ToAscii, ToBE, FromBE, Pow256, PutParticipant;
    Pow256Values();
    ToBERoundTrip(1, 2);
    ToBERoundTrip(2, 2);
    ToBERoundTrip(r.version, 2);
    var m, d, g := RosterPreimage(r), ToAscii(ROSTER_DOMAIN), ToAscii("DOMBTC");
    var a := |d|;
    var t5 := PutParticipant(r.first, PutParticipant(r.second, []));
    var t4 := ToBE(r.version, 2) + t5;
    var t3 := ToBE(2, 2) + t4;
    var t2 := ToBE(1, 2) + t3;
    Peel(m, 0, d, g + t2);
    Peel(m, a, g, t2);
    Peel(m, a + 6, ToBE(1, 2), t3);
    Peel(m, a + 8, ToBE(2, 2), t4);
    Peel(m, a + 10, ToBE(r.version, 2), t5);
  }

  lemma ParticipantLayout(m: Bytes, at: nat, p: Participant, rest: Bytes)
    requires ParticipantTyped(p) && at <= |m| && m[at..] == PutParticipant(p, rest)
    ensures |m| == at + 66 + |rest| && m[at..at + 32] == p.id && m[at + 32] == RoleTag(p.role)
    ensures m[at + 33..at + 66] == p.key && m[at + 66..] == rest
  {
    Peel(m, at, p.id, [RoleTag(p.role)] + (p.key + rest));
    Peel(m, at + 32, [RoleTag(p.role)], p.key + rest);
    assert m[at + 32..at + 33] == [m[at + 32]];
    Peel(m, at + 33, p.key, rest);
  }

  /** The smaller nonce, byte by byte from the left, comes first. */
  lemma TranscriptLayout(session: Bytes, local: Bytes, remote: Bytes)
    requires |session| == 32 && |local| == |remote| == 66 && local != remote
    ensures var m := TranscriptPreimage(session, local, remote);
      var a := |ToAscii("DOM-INTEROP/BTC-ACTUATOR/CLAIM-TRANSCRIPT/V1\0")|;
      && |m| == a + 164 && m[..a] == ToAscii("DOM-INTEROP/BTC-ACTUATOR/CLAIM-TRANSCRIPT/V1\0") && m[a..a + 32] == session
      && {m[a + 32..a + 98], m[a + 98..]} == {local, remote} && Less(m[a + 32..a + 98], m[a + 98..])
  {
    hide ToAscii, Less;
    LessTotal(local, remote);
    var m := TranscriptPreimage(session, local, remote);
    if Less(local, remote) {
      TranscriptParts(m, session, local, remote);
    } else {
      TranscriptParts(m, session, remote, local);
    }
  }

  lemma TranscriptParts(m: Bytes, session: Bytes, x: Bytes, y: Bytes)
    requires |session| == 32 && |x| == |y| == 66 && m == ToAscii(TRANSCRIPT_DOMAIN) + (session + (x + y))
    ensures var a := |ToAscii(TRANSCRIPT_DOMAIN)|;
      && |m| == a + 164 && m[..a] == ToAscii(TRANSCRIPT_DOMAIN) && m[a..a + 32] == session
      && m[a + 32..a + 98] == x && m[a + 98..] == y
  {
    hide ToAscii;
    var d := ToAscii(TRANSCRIPT_DOMAIN);
    Peel(m, 0, d, session + (x + y));
    Peel(m, |d|, session, x + y);
    Peel(m, |d| + 32, x, y);
  }

  lemma PermitLayout(s: Session, id: Bytes, rosterHash: Bytes, c: Context)
    requires SessionTyped(s) && |id| == |rosterHash| == |c.templateHash| == |c.sighash| == 32
    ensures var m := PermitPreimage(s, id, rosterHash, c); var a := |ToAscii("DOM-INTEROP/BTC/F5/V1/NONCE-RESERVATION\0")|;
      && |m| == a + 263 && m[..a] == ToAscii("DOM-INTEROP/BTC/F5/V1/NONCE-RESERVATION\0")
      && m[a..a + 32] == s.settlementId && m[a + 32..a + 64] == s.sessionId && m[a + 64..a + 96] == id
      && m[a + 96] == 1 && m[a + 97] == 1 && m[a + 98..a + 130] == rosterHash && m[a + 130..a + 162] == s.terms
      && m[a + 162..a + 194] == c.templateHash && m[a + 194..a + 226] == c.sighash
      && m[a + 226..a + 259] == s.adaptorPoint && FromBE(m[a + 259..]) == s.attempt
  {
    hide ToAscii, ToBE, FromBE, Pow256, RosterTyped;
    ToBERoundTrip(s.attempt, 4);
    var m, d := PermitPreimage(s, id, rosterHash, c), ToAscii(RESERVATION_DOMAIN);
    var t := rosterHash + (s.terms + (c.templateHash + (c.sighash + (s.adaptorPoint + ToBE(s.attempt, 4)))));
    PermitHead(m, d, s.settlementId, s.sessionId, id, t);
    PermitTail(m, |d| + 98, rosterHash, s.terms, c.templateHash, c.sighash, s.adaptorPoint, ToBE(s.attempt, 4));
  }

  lemma PermitHead(m: Bytes, d: Bytes, settlement: Bytes, session: Bytes, id: Bytes, rest: Bytes)
    requires |settlement| == |session| == |id| == 32 && m == d + (settlement + (session + (id + ([1, 1] + rest))))
    ensures var a := |d|;
      && |m| >= a + 98 && m[..a] == d && m[a..a + 32] == settlement && m[a + 32..a + 64] == session
      && m[a + 64..a + 96] == id && m[a + 96] == 1 && m[a + 97] == 1 && m[a + 98..] == rest
  {
    var a, t := |d|, [1, 1] + rest;
    assert m[0..] == m;
    Peel(m, 0, d, settlement + (session + (id + t)));
    Peel(m, a, settlement, session + (id + t));
    Peel(m, a + 32, session, id + t);
    Peel(m, a + 64, id, t);
    Peel(m, a + 96, [1, 1], rest);
    assert m[a + 96..a + 98] == [m[a + 96], m[a + 97]];
  }

  lemma PermitTail(m: Bytes, a: nat, roster: Bytes, terms: Bytes, template: Bytes, sighash: Bytes, point: Bytes, attempt: Bytes)
    requires |roster| == |terms| == |template| == |sighash| == 32 && |point| == 33 && a <= |m|
    requires m[a..] == roster + (terms + (template + (sighash + (point + attempt))))
    ensures |m| == a + 161 + |attempt| && m[a..a + 32] == roster && m[a + 32..a + 64] == terms
    ensures m[a + 64..a + 96] == template && m[a + 96..a + 128] == sighash && m[a + 128..a + 161] == point
    ensures m[a + 161..] == attempt
  {
    Peel(m, a, roster, terms + (template + (sighash + (point + attempt))));
    Peel(m, a + 32, terms, template + (sighash + (point + attempt)));
    Peel(m, a + 64, template, sighash + (point + attempt));
    Peel(m, a + 96, sighash, point + attempt);
    Peel(m, a + 128, point, attempt);
  }
}
