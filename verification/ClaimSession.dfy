/**
 The public session of a participant-separated Bitcoin claim: the digest both
 participants sign under, and the transcript digest that fixes their nonces
 (crates/btc-actuator/src/signer.rs).
 */
module ClaimSession {
  import opened Wire
  import opened ActuationScope

  const MAX_SCRIPT_BYTES := 10_000
  const ROSTER_VERSION := 1
  const SESSION_DOMAIN := "DOM-INTEROP/BTC-ACTUATOR/CLAIM-SESSION/V1\0"
  const SESSION_DOMAIN_V11 := "DOM-INTEROP/BTC-ACTUATOR/CLAIM-SESSION/V11\0"
  const TRANSCRIPT_DOMAIN := "DOM-INTEROP/BTC-ACTUATOR/CLAIM-TRANSCRIPT/V1\0"
  const ROSTER_DOMAIN := "DOM-INTEROP/BTC/F5/V1/ROSTER\0"
  const RESERVATION_DOMAIN := "DOM-INTEROP/BTC/F5/V1/NONCE-RESERVATION\0"

  datatype Role = Maker | Taker

  function RoleTag(r: Role): Byte {
    match r case Maker => 1 case Taker => 2
  }

  datatype Participant = Participant(id: Bytes, role: Role, key: Bytes)
  datatype Roster = Roster(version: nat, first: Participant, second: Participant)
  datatype Delay = Blocks(value: nat) | Time512s(value: nat)

  datatype Session = Session(
    routeId: Bytes, effectId: Bytes, fenceEpoch: nat, settlementId: Bytes, sessionId: Bytes, terms: Bytes,
    routeTerms: Option<Bytes>, registry: Bytes, profile: Bytes, deployment: Bytes, network: Network,
    roster: Roster, fundingTxid: Bytes, fundingVout: nat, amount: nat, contractScript: Bytes,
    refundKey: Bytes, refundDelay: Delay, destinationScript: Bytes, fee: nat, expectedTemplate: Bytes,
    adaptorPoint: Bytes, attempt: nat)

  /** The frozen one-input one-output claim transaction a session stands for. */
  datatype Template = Template(network: Network, txid: Bytes, vout: nat, prevAmount: nat, prevScript: Bytes,
    amount: nat, script: Bytes)

  /** Foreign primitives: the hash, Taproot, the frozen template's digests and identity, point and signature checks. */
  datatype Crypto = Crypto(
    hash: Bytes -> Bytes,
    contractScript: (Roster, Bytes, Delay) -> Option<Bytes>,
    templateHash: Template -> Option<Bytes>,
    sighash: Template -> Option<Bytes>,
    txid: Template -> Bytes,
    isPoint: Bytes -> bool,
    isNonce: Bytes -> bool,
    verify: (Bytes, Bytes, Bytes) -> bool)

  ghost predicate Wide(hash: Bytes -> Bytes) {
    forall x :: |hash(x)| == 32
  }

  // ===== Rosters

  predicate ParticipantTyped(p: Participant) {
    |p.id| == 32 && |p.key| == 33
  }

  predicate RosterTyped(r: Roster) {
    r.version < Pow256(2) && ParticipantTyped(r.first) && ParticipantTyped(r.second)
  }

  predicate RosterValid(r: Roster) {
    && r.version == ROSTER_VERSION
    && r.first.id != r.second.id && r.first.role != r.second.role && r.first.key != r.second.key
    && r.first.key != [] && r.second.key != []
    && (r.first.key[0] == 2 || r.first.key[0] == 3) && (r.second.key[0] == 2 || r.second.key[0] == 3)
  }

  function PutParticipant(p: Participant, rest: Bytes): Bytes {
    p.id + ([RoleTag(p.role)] + (p.key + rest))
  }

  function RosterPreimage(r: Roster): Bytes {
    ToAscii(ROSTER_DOMAIN) + (ToAscii("DOMBTC") + (ToBE(1, 2) + (ToBE(2, 2) + (ToBE(r.version, 2)
      + PutParticipant(r.first, PutParticipant(r.second, []))))))
  }

  function GetParticipant(s: Bytes): Parsed<Participant, ()> {
    var (id, s) :- Take(32, s, ());
    var (tag, s) :- TakeU8(s, ());
    var (key, s) :- Take(33, s, ());
    Good(Participant(id, if tag == 1 then Maker else Taker, key), s)
  }

  lemma ParticipantInverse(p: Participant, rest: Bytes)
    requires ParticipantTyped(p)
    ensures GetParticipant(PutParticipant(p, rest)) == Good(p, rest)
  {
    hide Take, TakeU8;
    ReadsBack<()>();
  }

  lemma RosterInjective(a: Roster, b: Roster)
    requires RosterTyped(a) && RosterTyped(b) && RosterPreimage(a) == RosterPreimage(b)
    ensures a == b
  {
    hide Take, TakeU8, ToBE, ToAscii, GetParticipant, PutParticipant, Pow256;
    ReadsBack<()>();
    var d, m, w, k := ToAscii(ROSTER_DOMAIN), ToAscii("DOMBTC"), ToBE(1, 2), ToBE(2, 2);
    var a1, b1 := PutParticipant(a.first, PutParticipant(a.second, [])), PutParticipant(b.first, PutParticipant(b.second, []));
    var a2, b2 := ToBE(a.version, 2) + a1, ToBE(b.version, 2) + b1;
    SplitEqual(d, m + (w + (k + a2)), d, m + (w + (k + b2)));
    SplitEqual(m, w + (k + a2), m, w + (k + b2));
    SplitEqual(w, k + a2, w, k + b2);
    SplitEqual(k, a2, k, b2);
    assert TakeU(2, a2, ()) == TakeU(2, b2, ());
    ParticipantInverse(a.first, PutParticipant(a.second, []));
    ParticipantInverse(b.first, PutParticipant(b.second, []));
    ParticipantInverse(a.second, []);
    ParticipantInverse(b.second, []);
  }

  // ===== The claim template

  /** The relative lock of a refund as a sequence number. */
  function CsvSequence(d: Delay): nat {
    match d
    case Blocks(v) => v
    case Time512s(v) => 0x40_0000 + v
  }

  lemma CsvInjective(a: Delay, b: Delay)
    requires a.value < Pow256(2) && b.value < Pow256(2)
    ensures CsvSequence(a) < Pow256(4)
    ensures CsvSequence(a) == CsvSequence(b) ==> a == b
  {
    Pow256Values();
  }

  datatype Context = Context(template: Template, templateHash: Bytes, sighash: Bytes)

  function ClaimTemplate(s: Session): Template
    requires s.fee < s.amount
  {
    Template(s.network, s.fundingTxid, s.fundingVout, s.amount, s.contractScript, s.amount - s.fee, s.destinationScript)
  }

  predicate SessionSane(k: Crypto, s: Session) {
    && RosterValid(s.roster)
    && s.routeId != ZERO32 && s.effectId != ZERO32 && s.fenceEpoch != 0 && s.settlementId != ZERO32
    && s.sessionId != ZERO32 && s.terms != ZERO32 && s.registry != ZERO32 && s.profile != ZERO32
    && s.deployment != ZERO32 && s.fundingTxid != ZERO32 && 0 < s.amount <= MAX_MONEY_SAT
    && 0 < |s.contractScript| <= MAX_SCRIPT_BYTES && 0 < |s.destinationScript| <= MAX_SCRIPT_BYTES
    && 0 < s.fee < s.amount && s.expectedTemplate != ZERO32 && k.isPoint(s.adaptorPoint)
  }

  function BuildContext(k: Crypto, s: Session): Option<Context> {
    if !SessionSane(k, s) || k.contractScript(s.roster, s.refundKey, s.refundDelay) != Some(s.contractScript) then None
    else
      var t := ClaimTemplate(s);
      match (k.templateHash(t), k.sighash(t))
      case (Some(h), Some(m)) => if h == s.expectedTemplate then Some(Context(t, h, m)) else None
      case _ => None
  }

  // ===== The session digest

  predicate SessionTyped(s: Session) {
    && |s.routeId| == 32 && |s.effectId| == 32 && s.fenceEpoch < Pow256(8) && |s.settlementId| == 32
    && |s.sessionId| == 32 && |s.terms| == 32 && (s.routeTerms.Some? ==> |s.routeTerms.value| == 32)
    && |s.registry| == 32 && |s.profile| == 32 && |s.deployment| == 32 && RosterTyped(s.roster)
    && |s.fundingTxid| == 32 && s.fundingVout < Pow256(4) && s.amount < Pow256(8) && |s.refundKey| == 32
    && s.refundDelay.value < Pow256(2) && s.fee < Pow256(8) && |s.expectedTemplate| == 32
    && |s.adaptorPoint| == 33 && s.attempt < Pow256(4)
    && |s.contractScript| < Pow256(4) && |s.destinationScript| < Pow256(4)
  }

  function PutRouteTerms(o: Option<Bytes>, rest: Bytes): Bytes {
    match o
    case Some(v) => v + rest
    case None => rest
  }

  function PutIdentity(s: Session, rosterHash: Bytes, rest: Bytes): Bytes {
    s.routeId + (s.effectId + (s.settlementId + (s.sessionId + (s.terms + PutRouteTerms(s.routeTerms,
      s.registry + (s.profile + (s.deployment + ([NetworkTag(s.network)] + (rosterHash + rest)))))))))
  }

  function PutContract(s: Session, rest: Bytes): Bytes {
    s.fundingTxid + (ToBE(s.fundingVout, 4) + (ToBE(s.amount, 8)
      + (ToBE(|s.contractScript|, 4) + (s.contractScript
      + (s.refundKey + (ToBE(CsvSequence(s.refundDelay), 4) + rest))))))
  }

  function PutSpend(s: Session, sighash: Bytes): Bytes {
    ToBE(|s.destinationScript|, 4) + (s.destinationScript + (ToBE(s.fee, 8)
      + (s.expectedTemplate + (s.adaptorPoint + (ToBE(s.attempt, 4) + sighash)))))
  }

  function DomainOf(s: Session): string {
    if s.routeTerms.Some? then SESSION_DOMAIN_V11 else SESSION_DOMAIN
  }

  /** The bytes hashed into the session digest; the fencing epoch is not among them. */
  function SessionPreimage(s: Session, rosterHash: Bytes, sighash: Bytes): Bytes {
    ToAscii(DomainOf(s)) + PutIdentity(s, rosterHash, PutContract(s, PutSpend(s, sighash)))
  }

  function RosterHash(k: Crypto, r: Roster): Bytes {
    k.hash(RosterPreimage(r))
  }

  function SessionDigest(k: Crypto, s: Session): Option<Bytes> {
    match BuildContext(k, s)
    case None => None
    case Some(c) =>
      if s.routeTerms == Some(ZERO32) then None
      else Some(k.hash(SessionPreimage(s, RosterHash(k, s.roster), c.sighash)))
  }

  datatype Identity = Identity(routeId: Bytes, effectId: Bytes, settlementId: Bytes, sessionId: Bytes, terms: Bytes,
    routeTerms: Option<Bytes>, registry: Bytes, profile: Bytes, deployment: Bytes, network: Network, rosterHash: Bytes)

  function GetIdentity(v11: bool, s: Bytes): Parsed<Identity, ScopeError> {
    var (routeId, s) :- Take(32, s, CorruptState);
    var (effectId, s) :- Take(32, s, CorruptState);
    var (settlementId, s) :- Take(32, s, CorruptState);
    var (sessionId, s) :- Take(32, s, CorruptState);
    var (terms, s) :- Take(32, s, CorruptState);
    var (route, s) :- if v11 then Take(32, s, CorruptState) else Good([], s);
    var (registry, s) :- Take(32, s, CorruptState);
    var (profile, s) :- Take(32, s, CorruptState);
    var (deployment, s) :- Take(32, s, CorruptState);
    var (network, s) :- GetNetwork(s);
    var (rosterHash, s) :- Take(32, s, CorruptState);
    Good(Identity(routeId, effectId, settlementId, sessionId, terms, if v11 then Some(route) else None,
      registry, profile, deployment, network, rosterHash), s)
  }

  lemma IdentityInverse(s: Session, rosterHash: Bytes, rest: Bytes)
    requires SessionTyped(s) && |rosterHash| == 32
    ensures GetIdentity(s.routeTerms.Some?, PutIdentity(s, rosterHash, rest))
         == Good(Identity(s.routeId, s.effectId, s.settlementId, s.sessionId, s.terms, s.routeTerms, s.registry,
              s.profile, s.deployment, s.network, rosterHash), rest)
  {
    hide Take, TakeU8, RosterTyped, Pow256;
    ReadsBack<ScopeError>();
  }

  datatype Contract = Contract(fundingTxid: Bytes, fundingVout: nat, amount: nat, script: Bytes, refundKey: Bytes, csv: nat)

  function GetContract(s: Bytes): Parsed<Contract, ()> {
    var (txid, s) :- Take(32, s, ());
    var (vout, s) :- TakeU(4, s, ());
    var (amount, s) :- TakeU(8, s, ());
    var (n, s) :- TakeU(4, s, ());
    var (script, s) :- Take(n, s, ());
    var (refundKey, s) :- Take(32, s, ());
    var (csv, s) :- TakeU(4, s, ());
    Good(Contract(txid, vout, amount, script, refundKey, csv), s)
  }

  lemma ContractInverse(s: Session, rest: Bytes)
    requires SessionTyped(s)
    ensures GetContract(PutContract(s, rest)) == Good(Contract(s.fundingTxid, s.fundingVout, s.amount,
      s.contractScript, s.refundKey, CsvSequence(s.refundDelay)), rest)
  {
    hide Take, TakeU, ToBE, RosterTyped, Pow256, CsvSequence;
    CsvInjective(s.refundDelay, s.refundDelay);
    ReadsBack<()>();
  }

  datatype Payment = Payment(script: Bytes, fee: nat, template: Bytes, point: Bytes, attempt: nat)

  function GetSpend(s: Bytes): Parsed<Payment, ()> {
    var (n, s) :- TakeU(4, s, ());
    var (script, s) :- Take(n, s, ());
    var (fee, s) :- TakeU(8, s, ());
    var (template, s) :- Take(32, s, ());
    var (point, s) :- Take(33, s, ());
    var (attempt, s) :- TakeU(4, s, ());
    Good(Payment(script, fee, template, point, attempt), s)
  }

  lemma SpendInverse(s: Session, sighash: Bytes)
    requires SessionTyped(s)
    ensures GetSpend(PutSpend(s, sighash)) == Good(Payment(s.destinationScript, s.fee, s.expectedTemplate,
      s.adaptorPoint, s.attempt), sighash)
  {
    hide Take, TakeU, ToBE, RosterTyped, Pow256;
    ReadsBack<()>();
  }

  /** The two session domains part at the byte after "V1", whatever follows. */
  lemma DomainsDisjoint(x: Bytes, y: Bytes)
    ensures ToAscii(SESSION_DOMAIN) + x != ToAscii(SESSION_DOMAIN_V11) + y
  {
    var i := |SESSION_DOMAIN| - 1;
    assert (ToAscii(SESSION_DOMAIN) + x)[i] == 0;
    assert (ToAscii(SESSION_DOMAIN_V11) + y)[i] == '1' as int;
  }

  /** Everything but the fencing epoch. */
  predicate SameSession(a: Session, b: Session) {
    a == b.(fenceEpoch := a.fenceEpoch)
  }

  lemma SessionPreimageInjective(a: Session, ra: Bytes, ma: Bytes, b: Session, rb: Bytes, mb: Bytes)
    requires SessionTyped(a) && SessionTyped(b) && |ra| == 32 && |rb| == 32
    requires SessionPreimage(a, ra, ma) == SessionPreimage(b, rb, mb)
    ensures SameSession(a, b.(roster := a.roster)) && ra == rb
  {
    hide ToAscii, PutIdentity, PutContract, PutSpend, GetIdentity, GetContract, GetSpend, SessionTyped, CsvSequence;
    var ta, tb := PutSpend(a, ma), PutSpend(b, mb);
    var ca, cb := PutContract(a, ta), PutContract(b, tb);
    DomainsDisjoint(PutIdentity(a, ra, ca), PutIdentity(b, rb, cb));
    DomainsDisjoint(PutIdentity(b, rb, cb), PutIdentity(a, ra, ca));
    var d := ToAscii(DomainOf(a));
    assert a.routeTerms.Some? == b.routeTerms.Some?;
    SplitEqual(d, PutIdentity(a, ra, ca), d, PutIdentity(b, rb, cb));
    IdentityInverse(a, ra, ca);
    IdentityInverse(b, rb, cb);
    ContractInverse(a, ta);
    ContractInverse(b, tb);
    SpendInverse(a, ma);
    SpendInverse(b, mb);
    assert SessionTyped(a) && SessionTyped(b);
    DelaysEqual(a, b);
  }

  lemma DelaysEqual(a: Session, b: Session)
    requires SessionTyped(a) && SessionTyped(b) && CsvSequence(a.refundDelay) == CsvSequence(b.refundDelay)
    ensures a.refundDelay == b.refundDelay
  {
    CsvInjective(a.refundDelay, b.refundDelay);
  }

  /** What hashing a session hashes. */
  function SessionHashed(k: Crypto, s: Session): set<Bytes> {
    match BuildContext(k, s)
    case None => {}
    case Some(c) => {RosterPreimage(s.roster), SessionPreimage(s, RosterHash(k, s.roster), c.sighash)}
  }

  /** Without collisions a session digest fixes every public field of the session but the fencing epoch. */
  lemma SessionDigestBinds(k: Crypto, a: Session, b: Session)
    requires Wide(k.hash) && SessionTyped(a) && SessionTyped(b)
    requires SessionDigest(k, a).Some? && SessionDigest(k, a) == SessionDigest(k, b)
    requires InjectiveOn(k.hash, SessionHashed(k, a) + SessionHashed(k, b))
    ensures SameSession(a, b)
  {
    hide SessionTyped, SessionPreimage, RosterPreimage, BuildContext;
    var ca, cb := BuildContext(k, a).value, BuildContext(k, b).value;
    var ra, rb := RosterHash(k, a.roster), RosterHash(k, b.roster);
    assert SessionPreimage(a, ra, ca.sighash) == SessionPreimage(b, rb, cb.sighash);
    SessionPreimageInjective(a, ra, ca.sighash, b, rb, cb.sighash);
    RostersTyped(a);
    RostersTyped(b);
    assert RosterPreimage(a.roster) == RosterPreimage(b.roster);
    RosterInjective(a.roster, b.roster);
  }

  lemma RostersTyped(s: Session)
    requires SessionTyped(s)
    ensures RosterTyped(s.roster)
  {
  }

  /** The digest does not change when another process takes the session over under a new fencing epoch. */
  lemma TakeoverKeepsDigest(k: Crypto, s: Session, fence: nat)
    requires fence != 0 && SessionDigest(k, s).Some?
    ensures SessionDigest(k, s.(fenceEpoch := fence)) == SessionDigest(k, s)
  {
    hide SessionPreimage, RosterPreimage;
    var t := s.(fenceEpoch := fence);
    assert ClaimTemplate(t) == ClaimTemplate(s);
    assert forall r, m :: SessionPreimage(t, r, m) == SessionPreimage(s, r, m) by { PreimageIgnoresFence(s, fence); }
  }

  lemma PreimageIgnoresFence(s: Session, fence: nat)
    ensures forall r, m :: SessionPreimage(s.(fenceEpoch := fence), r, m) == SessionPreimage(s, r, m)
  {
  }

  // ===== The transcript digest

  /** Session digest, then the two public nonces, the smaller first. */
  function TranscriptPreimage(session: Bytes, local: Bytes, remote: Bytes): Bytes {
    ToAscii(TRANSCRIPT_DOMAIN) + (session + (if Less(local, remote) then local + remote else remote + local))
  }

  function TranscriptDigest(k: Crypto, session: Bytes, local: Bytes, remote: Bytes): Option<Bytes> {
    if local == remote then None else Some(k.hash(TranscriptPreimage(session, local, remote)))
  }

  /** Both participants hash the same bytes, each with its own nonce as the local one. */
  lemma TranscriptSymmetric(session: Bytes, a: Bytes, b: Bytes)
    ensures TranscriptPreimage(session, a, b) == TranscriptPreimage(session, b, a)
  {
    LessTotal(a, b);
  }

  /** A transcript fixes its session and the unordered pair of nonces. */
  lemma TranscriptInjective(s: Bytes, a: Bytes, b: Bytes, s': Bytes, a': Bytes, b': Bytes)
    requires |s| == 32 == |s'| && |a| == |b| == |a'| == |b'| == 66
    requires TranscriptPreimage(s, a, b) == TranscriptPreimage(s', a', b')
    ensures s == s' && ((a == a' && b == b') || (a == b' && b == a'))
  {
    hide Less, ToAscii;
    var x, y := if Less(a, b) then (a, b) else (b, a), if Less(a', b') then (a', b') else (b', a');
    var d := ToAscii(TRANSCRIPT_DOMAIN);
    SplitEqual(d, s + (x.0 + x.1), d, s' + (y.0 + y.1));
    SplitEqual(s, x.0 + x.1, s', y.0 + y.1);
    SplitEqual(x.0, x.1, y.0, y.1);
  }

  // ===== Authority

  /** One participant's route-scoped key. */
  datatype Authority = Authority(routeId: Bytes, terms: Bytes, registry: Bytes, profile: Bytes, deployment: Bytes,
    participantId: Bytes, role: Role, key: Bytes, digest: Bytes)

  function Own(role: Role, r: Roster): Participant {
    if role == Maker then r.first else r.second
  }

  function Peer(role: Role, r: Roster): Participant {
    if role == Maker then r.second else r.first
  }

  predicate AuthorityMatches(a: Authority, s: Session) {
    && a.routeId == s.routeId && a.terms == s.terms && a.registry == s.registry && a.profile == s.profile
    && a.deployment == s.deployment && Own(a.role, s.roster) == Participant(a.participantId, a.role, a.key)
  }

  // ===== Nonce reservations

  /** The permit a reservation is derived from; the effect and the route are not part of it. */
  function PermitPreimage(s: Session, participantId: Bytes, rosterHash: Bytes, c: Context): Bytes {
    ToAscii(RESERVATION_DOMAIN) + (s.settlementId + (s.sessionId + (participantId + ([1, 1] + (rosterHash
      + (s.terms + (c.templateHash + (c.sighash + (s.adaptorPoint + ToBE(s.attempt, 4))))))))))
  }

  function Reservation(k: Crypto, s: Session, participantId: Bytes): Option<Bytes> {
    match BuildContext(k, s)
    case None => None
    case Some(c) => Some(k.hash(PermitPreimage(s, participantId, RosterHash(k, s.roster), c)))
  }
}
