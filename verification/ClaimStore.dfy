/**
 One participant's durable claim state and the commits that change it:
 the claim transcript rows of crates/btc-actuator/src/store.rs and the nonce
 reservations of crates/adapters/btc-vault/src/vault.rs.  Each event below is
 one atomic commit (or one release of signed bytes); a crash can fall between
 any two of them.
 */
module ClaimStore {
  import opened Wire
  import opened ActuationScope
  import opened ClaimSession
  import opened ClaimWire

  /** What the validated cross-chain window pins; no delay means it has no Bitcoin refund face. */
  datatype Window = Window(policy: Bytes, anchors: Bytes, terms: Bytes, network: Network, fundingTxid: Bytes,
    delay: Option<Delay>)

  datatype SigningContext = SigningContext(scope: Scope, authority: Authority, session: Session, window: Window)

  datatype Row = Row(routeId: Bytes, fence: nat, participant: Bytes, role: Role, authority: Bytes, session: Bytes,
    localNonce: Option<Bytes>, remoteNonce: Option<Bytes>, transcript: Option<Bytes>,
    localPartial: Option<Bytes>, remotePartial: Option<Bytes>, verified: bool)

  datatype Reserved = Reserved(anchors: Bytes, nonce: Option<Bytes>, partial: Option<Bytes>)

  /** A finished round: what was aggregated, and the two peer frames it rests on. */
  datatype Completion = Completion(session: Session, digest: Bytes, role: Role, local: Bytes, remote: Bytes,
    transcript: Bytes, policy: Bytes, anchors: Bytes, nonceFrame: Body, partialFrame: Body)

  /**
   The rows and the vault are what the disk holds.  `sessions`, `authored` and `completed` record
   history: the session each row was opened for, the bodies signed so far, the rounds finished so far.
   */
  datatype Party = Party(id: Bytes, keys: set<Bytes>, rows: map<Bytes, Row>, vault: map<Bytes, Reserved>,
    sessions: map<Bytes, Session>, authored: set<Body>, completed: set<Completion>)

  type Committed = Result<Party, ClaimError>

  // ===== Authorization, repeated before every commit

  predicate TimingMatches(w: Window, s: Session) {
    s.terms == w.terms && w.delay == Some(s.refundDelay) && s.network == w.network && s.fundingTxid == w.fundingTxid
  }

  function ActuationTerms(s: Session): Bytes {
    if s.routeTerms.Some? then s.routeTerms.value else s.terms
  }

  predicate ScopeMatches(k: Crypto, scope: Scope, s: Session, digest: Bytes, c: Context) {
    && scope.action == Claim && scope.routeId == s.routeId && scope.effectId == s.effectId
    && scope.fenceEpoch == s.fenceEpoch && scope.terms == ActuationTerms(s) && scope.registry == s.registry
    && scope.profile == s.profile && scope.deployment == s.deployment && scope.network == s.network
    && scope.expectedTxid == k.txid(c.template) && scope.intent == digest
    && scope.outpoint == Some(Outpoint(s.fundingTxid, s.fundingVout)) && scope.amount == s.amount
    && scope.policy.initialFee == s.fee && scope.policy.changeVout.None?
  }

  /** The session digest, once timing, session, authority and scope agree. */
  function Authorized(k: Crypto, x: SigningContext): Option<Bytes> {
    match SessionDigest(k, x.session)
    case None => None
    case Some(d) =>
      if TimingMatches(x.window, x.session) && AuthorityMatches(x.authority, x.session)
         && ScopeMatches(k, x.scope, x.session, d, BuildContext(k, x.session).value) then Some(d) else None
  }

  /** The row this context owns, inserted when there is none. */
  function Opened(k: Crypto, p: Party, x: SigningContext): Committed {
    var e := x.session.effectId;
    match Authorized(k, x)
    case None => Err(ClaimAuthorityMismatch)
    case Some(d) =>
      if x.authority.participantId != p.id then Err(ClaimAuthorityMismatch)
      else if e !in p.rows then
        Ok(p.(rows := p.rows[e := Row(x.session.routeId, x.scope.fenceEpoch, p.id, x.authority.role,
          x.authority.digest, d, None, None, None, None, None, false)], sessions := p.sessions[e := x.session]))
      else
        var r := p.rows[e];
        if r.routeId != x.session.routeId || r.participant != p.id || r.authority != x.authority.digest
           || r.session != d || r.role != x.authority.role then Err(IdempotencyConflict)
        else if r.fence < x.scope.fenceEpoch then Err(ReconciliationRequired)
        else if r.fence > x.scope.fenceEpoch then Err(StaleFencing)
        else Ok(p)
  }

  /**
   The row this context was opened under, whatever its fencing epoch is by now: releasing signed bytes and
   finishing after an aggregation do not look at the fence again.
   */
  function Held(k: Crypto, p: Party, x: SigningContext): Committed {
    var e := x.session.effectId;
    match Authorized(k, x)
    case None => Err(ClaimAuthorityMismatch)
    case Some(d) =>
      if x.authority.participantId != p.id then Err(ClaimAuthorityMismatch)
      else if e !in p.rows then Err(InvalidState)
      else
        var r := p.rows[e];
        if r.routeId != x.session.routeId || r.participant != p.id || r.authority != x.authority.digest
           || r.session != d || r.role != x.authority.role then Err(IdempotencyConflict)
        else Ok(p)
  }

  /** A column that keeps its first value: the same value again is fine, another one conflicts. */
  function Bind(column: Option<Bytes>, value: Bytes): Option<Bytes> {
    if column.None? || column.value == value then Some(value) else None
  }

  function RowOf(p: Party, x: SigningContext): Row
    requires x.session.effectId in p.rows
  {
    p.rows[x.session.effectId]
  }

  function SetRow(p: Party, x: SigningContext, r: Row): Party {
    p.(rows := p.rows[x.session.effectId := r])
  }

  // ===== The nonce vault

  function ReservationOf(k: Crypto, p: Party, s: Session): Option<Bytes> {
    Reservation(k, s, p.id)
  }

  function VaultNonce(k: Crypto, p: Party, s: Session): Option<Bytes> {
    match ReservationOf(k, p, s)
    case None => None
    case Some(i) => if i in p.vault then p.vault[i].nonce else None
  }

  function VaultPartial(k: Crypto, p: Party, s: Session): Option<Bytes> {
    match ReservationOf(k, p, s)
    case None => None
    case Some(i) => if i in p.vault then p.vault[i].partial else None
  }

  predicate VaultBound(k: Crypto, p: Party, x: SigningContext) {
    var i := ReservationOf(k, p, x.session);
    i.Some? && i.value in p.vault && p.vault[i.value].anchors == x.window.anchors
  }

  // ===== Commits

  datatype Event =
    | Open(x: SigningContext)
    | Reserve(x: SigningContext)
    | CommitNonce(x: SigningContext, made: Bytes)
    | RecordNonce(x: SigningContext)
    | SendNonce(x: SigningContext)
    | BindRemote(x: SigningContext, nonceFrame: Bytes)
    | CommitPartial(x: SigningContext, made: Bytes)
    | RecordPartial(x: SigningContext)
    | SendPartial(x: SigningContext, nonceFrame: Bytes)
    | BindPartial(x: SigningContext, nonceFrame: Bytes, partialFrame: Bytes)
    | Complete(x: SigningContext, nonceFrame: Bytes, partialFrame: Bytes)
    | TakeOver(x: SigningContext)

  function ScopeOf(x: SigningContext, digest: Bytes): MessageScope {
    MessageScope(digest, x.window.policy, x.window.anchors)
  }

  function BodyFor(x: SigningContext, digest: Bytes, kind: Byte, payload: Bytes): Body {
    Body(kind, x.authority.role, digest, x.authority.participantId, x.window.policy, x.window.anchors, payload)
  }

  predicate FromPeer(k: Crypto, x: SigningContext, m: Bytes, kind: Byte) {
    && Authorized(k, x).Some? && Framed(m)
    && VerifyPeer(k, ScopeOf(x, Authorized(k, x).value), m, kind, x.authority.role, x.session.roster).Ok?
  }

  function ReserveStep(k: Crypto, p: Party, x: SigningContext): Committed {
    var i := ReservationOf(k, p, x.session);
    if Authorized(k, x).None? || i.None? || x.window.anchors == ZERO32 then Err(ClaimAuthorityMismatch)
    else if i.value !in p.vault then
      Ok(p.(vault := p.vault[i.value := Reserved(x.window.anchors, None, None)]))
    else if p.vault[i.value].anchors != x.window.anchors then Err(ClaimNonceCustody)
    else Ok(p)
  }

  /** The generated nonce is kept only by a reservation that has none yet. */
  function CommitNonceStep(k: Crypto, p: Party, x: SigningContext, made: Bytes): Committed {
    if Authorized(k, x).None? || !VaultBound(k, p, x) then Err(ClaimNonceCustody)
    else
      var i := ReservationOf(k, p, x.session).value;
      if p.vault[i].nonce.Some? then Ok(p) else Ok(p.(vault := p.vault[i := p.vault[i].(nonce := Some(made))]))
  }

  function RecordNonceStep(k: Crypto, p: Party, x: SigningContext): Committed {
    var p :- Opened(k, p, x);
    var n := VaultNonce(k, p, x.session);
    var r := RowOf(p, x);
    if !VaultBound(k, p, x) || n.None? then Err(ClaimNonceCustody)
    else if Bind(r.localNonce, n.value).None? then Err(IdempotencyConflict)
    else Ok(SetRow(p, x, r.(localNonce := n)))
  }

  function SendNonceStep(k: Crypto, p: Party, x: SigningContext): Committed {
    var p :- Held(k, p, x);
    var r := RowOf(p, x);
    if r.localNonce.None? then Err(InvalidState)
    else Ok(p.(authored := p.authored + {BodyFor(x, r.session, NONCE, r.localNonce.value)}))
  }

  function BindRemoteStep(k: Crypto, p: Party, x: SigningContext, m: Bytes): Committed {
    if !FromPeer(k, x, m, NONCE) then Err(ClaimAuthorityMismatch) else
    var p :- Opened(k, p, x);
    var r := RowOf(p, x);
    if Bind(r.remoteNonce, BodyOf(m).payload).None? then Err(IdempotencyConflict)
    else Ok(SetRow(p, x, r.(remoteNonce := Some(BodyOf(m).payload))))
  }

  /** The partial signature is computed and kept only by a reservation that has none yet. */
  function CommitPartialStep(k: Crypto, p: Party, x: SigningContext, made: Bytes): Committed {
    if Authorized(k, x).None? || !VaultBound(k, p, x) || x.session.effectId !in p.rows then Err(ClaimNonceCustody)
    else
      var i := ReservationOf(k, p, x.session).value;
      var remote := RowOf(p, x).remoteNonce;
      if remote.None? || !k.isNonce(remote.value) || p.vault[i].nonce.None? then Err(ClaimNonceCustody)
      else if p.vault[i].partial.Some? then Ok(p)
      else Ok(p.(vault := p.vault[i := p.vault[i].(partial := Some(made))]))
  }

  function RecordPartialStep(k: Crypto, p: Party, x: SigningContext): Committed {
    var p :- Opened(k, p, x);
    var r := RowOf(p, x);
    var n, s := VaultNonce(k, p, x.session), VaultPartial(k, p, x.session);
    if !VaultBound(k, p, x) || n.None? || s.None? || r.remoteNonce.None? then Err(ClaimNonceCustody)
    else
      match TranscriptDigest(k, r.session, n.value, r.remoteNonce.value)
      case None => Err(ClaimAuthorityMismatch)
      case Some(t) =>
        if Bind(r.localPartial, s.value).None? || Bind(r.transcript, t).None? then Err(IdempotencyConflict)
        else Ok(SetRow(p, x, r.(localPartial := s, transcript := Some(t))))
  }

  function SendPartialStep(k: Crypto, p: Party, x: SigningContext, m: Bytes): Committed {
    if !FromPeer(k, x, m, NONCE) then Err(ClaimAuthorityMismatch) else
    var p :- Held(k, p, x);
    var r := RowOf(p, x);
    if r.remoteNonce != Some(BodyOf(m).payload) then Err(IdempotencyConflict)
    else if r.localPartial.None? || r.transcript.None? then Err(InvalidState)
    else Ok(p.(authored := p.authored + {BodyFor(x, r.session, PARTIAL, r.transcript.value + r.localPartial.value)}))
  }

  /** Both peer frames are authentic, and the peer's partial names the transcript recorded here. */
  predicate PeerFramesMatch(k: Crypto, x: SigningContext, r: Row, m: Bytes, n: Bytes) {
    && FromPeer(k, x, m, NONCE) && FromPeer(k, x, n, PARTIAL)
    && r.remoteNonce == Some(BodyOf(m).payload) && r.localPartial.Some?
    && r.transcript == Some(BodyOf(n).payload[..32])
  }

  function BindPartialStep(k: Crypto, p: Party, x: SigningContext, m: Bytes, n: Bytes): Committed {
    var p :- Opened(k, p, x);
    var r := RowOf(p, x);
    if !PeerFramesMatch(k, x, r, m, n) then Err(ClaimAuthorityMismatch)
    else if Bind(r.remotePartial, BodyOf(n).payload[32..]).None? then Err(IdempotencyConflict)
    else Ok(SetRow(p, x, r.(remotePartial := Some(BodyOf(n).payload[32..]))))
  }

  /** Aggregation succeeded: the peer's partial verified against the locally rebuilt transcript. */
  function CompleteStep(k: Crypto, p: Party, x: SigningContext, m: Bytes, n: Bytes): Committed {
    var p :- Held(k, p, x);
    var r := RowOf(p, x);
    var local := VaultNonce(k, p, x.session);
    if !PeerFramesMatch(k, x, r, m, n) || r.remotePartial != Some(BodyOf(n).payload[32..]) then
      Err(ClaimAuthorityMismatch)
    else if !VaultBound(k, p, x) || local.None? || VaultPartial(k, p, x.session).None? then Err(ClaimNonceCustody)
    else
      var t := TranscriptDigest(k, r.session, local.value, r.remoteNonce.value);
      if t.None? || r.transcript != t then Err(IdempotencyConflict)
      else
        var c := Completion(x.session, r.session, x.authority.role, local.value, r.remoteNonce.value, t.value,
          x.window.policy, x.window.anchors, BodyOf(m), BodyOf(n));
        Ok(SetRow(p, x, r.(verified := true)).(completed := p.completed + {c}))
  }

  /** Re-fences an existing row; nothing else of it changes. */
  function TakeOverStep(k: Crypto, p: Party, x: SigningContext): Committed {
    var e := x.session.effectId;
    match Authorized(k, x)
    case None => Err(ClaimAuthorityMismatch)
    case Some(d) =>
      if e !in p.rows then Err(EffectNotFound)
      else
        var r := p.rows[e];
        if r.routeId != x.session.routeId || r.participant != x.authority.participantId
           || r.authority != x.authority.digest || r.session != d then Err(IdempotencyConflict)
        else if r.fence >= x.scope.fenceEpoch then Err(StaleFencing)
        else Ok(SetRow(p, x, r.(fence := x.scope.fenceEpoch)))
  }

  function Apply(k: Crypto, p: Party, e: Event): Committed {
    match e
    case Open(x) => Opened(k, p, x)
    case Reserve(x) => ReserveStep(k, p, x)
    case CommitNonce(x, made) => CommitNonceStep(k, p, x, made)
    case RecordNonce(x) => RecordNonceStep(k, p, x)
    case SendNonce(x) => SendNonceStep(k, p, x)
    case BindRemote(x, m) => BindRemoteStep(k, p, x, m)
    case CommitPartial(x, made) => CommitPartialStep(k, p, x, made)
    case RecordPartial(x) => RecordPartialStep(k, p, x)
    case SendPartial(x, m) => SendPartialStep(k, p, x, m)
    case BindPartial(x, m, n) => BindPartialStep(k, p, x, m, n)
    case Complete(x, m, n) => CompleteStep(k, p, x, m, n)
    case TakeOver(x) => TakeOverStep(k, p, x)
  }

  // ===== Nothing once written is ever changed

  predicate Stays(a: Option<Bytes>, b: Option<Bytes>) {
    a.Some? ==> b == a
  }

  predicate RowExtends(a: Row, b: Row) {
    && a.session == b.session && a.role == b.role && a.participant == b.participant
    && Stays(a.localNonce, b.localNonce) && Stays(a.remoteNonce, b.remoteNonce) && Stays(a.transcript, b.transcript)
    && Stays(a.localPartial, b.localPartial) && Stays(a.remotePartial, b.remotePartial)
  }

  predicate ReservedExtends(a: Reserved, b: Reserved) {
    a.anchors == b.anchors && Stays(a.nonce, b.nonce) && Stays(a.partial, b.partial)
  }

  predicate Extends(p: Party, q: Party) {
    && q.id == p.id && q.keys == p.keys
    && (forall e :: e in p.rows ==> e in q.rows && RowExtends(p.rows[e], q.rows[e]))
    && (forall e :: e in p.rows && e in p.sessions ==> e in q.sessions && q.sessions[e] == p.sessions[e])
    && (forall i :: i in p.vault ==> i in q.vault && ReservedExtends(p.vault[i], q.vault[i]))
    && p.authored <= q.authored && p.completed <= q.completed
  }

  lemma ExtendsTransitive(p: Party, q: Party, r: Party)
    requires Extends(p, q) && Extends(q, r)
    ensures Extends(p, r)
  {
  }

  lemma OpenedExtends(k: Crypto, p: Party, x: SigningContext)
    requires Opened(k, p, x).Ok?
    ensures Extends(p, Opened(k, p, x).value)
  {
    hide Authorized;
  }

  lemma SetRowExtends(p: Party, x: SigningContext, r: Row)
    requires x.session.effectId in p.rows && RowExtends(RowOf(p, x), r)
    ensures Extends(p, SetRow(p, x, r))
  {
  }

  lemma SetReservedExtends(p: Party, i: Bytes, v: Reserved)
    requires i in p.vault ==> ReservedExtends(p.vault[i], v)
    ensures Extends(p, p.(vault := p.vault[i := v]))
  {
  }

  lemma ExtendsItself(p: Party)
    ensures Extends(p, p)
  {
  }

  lemma VaultStepExtends(k: Crypto, p: Party, e: Event)
    requires Apply(k, p, e).Ok? && (e.Reserve? || e.CommitNonce? || e.CommitPartial?)
    ensures Extends(p, Apply(k, p, e).value)
  {
    hide Authorized, ReservationOf, Extends;
    var i := ReservationOf(k, p, e.x.session).value;
    SetReservedExtends(p, i, Apply(k, p, e).value.vault[i]);
    ExtendsItself(p);
  }

  lemma RowStepExtends(k: Crypto, p: Party, e: Event)
    requires Apply(k, p, e).Ok?
    requires e.RecordNonce? || e.BindRemote? || e.RecordPartial? || e.BindPartial? || e.TakeOver?
    ensures Extends(p, Apply(k, p, e).value)
  {
    hide Authorized, Opened, FromPeer, VaultBound, TranscriptDigest, BodyFor, Extends, VaultNonce, VaultPartial;
    if e.TakeOver? {
      SetRowExtends(p, e.x, RowOf(Apply(k, p, e).value, e.x));
    } else {
      var q := Opened(k, p, e.x).value;
      OpenedExtends(k, p, e.x);
      OpenedHasRow(k, p, e.x);
      SetRowExtends(q, e.x, RowOf(Apply(k, p, e).value, e.x));
      ExtendsTransitive(p, q, Apply(k, p, e).value);
    }
  }

  lemma OpenedHasRow(k: Crypto, p: Party, x: SigningContext)
    requires Opened(k, p, x).Ok?
    ensures x.session.effectId in Opened(k, p, x).value.rows
  {
    hide Authorized;
  }

  lemma SendStepExtends(k: Crypto, p: Party, e: Event)
    requires Apply(k, p, e).Ok? && (e.Open? || e.SendNonce? || e.SendPartial? || e.Complete?)
    ensures Extends(p, Apply(k, p, e).value)
  {
    hide Authorized, Opened, FromPeer, VaultBound, TranscriptDigest, BodyFor, VaultNonce, VaultPartial;
    if e.Open? {
      OpenedExtends(k, p, e.x);
    }
  }

  /** Every commit keeps every nonce, transcript, partial and reservation that was there. */
  lemma ApplyExtends(k: Crypto, p: Party, e: Event)
    requires Apply(k, p, e).Ok?
    ensures Extends(p, Apply(k, p, e).value)
  {
    hide Apply, Extends;
    match e {
      case Open(_) => SendStepExtends(k, p, e);
      case SendNonce(_) => SendStepExtends(k, p, e);
      case SendPartial(_, _) => SendStepExtends(k, p, e);
      case Complete(_, _, _) => SendStepExtends(k, p, e);
      case Reserve(_) => VaultStepExtends(k, p, e);
      case CommitNonce(_, _) => VaultStepExtends(k, p, e);
      case CommitPartial(_, _) => VaultStepExtends(k, p, e);
      case _ => RowStepExtends(k, p, e);
    }
  }
}
