/**
 Any number of participants, sessions, restarts and takeovers over a network
 that may drop, duplicate, reorder and invent frames.  What a finished round
 says about the peer, for every run.
 */
module ClaimProtocol {
  import opened Wire
  import opened ActuationScope
  import opened ClaimSession
  import opened ClaimWire
  import opened ClaimStore

  type World = map<Bytes, Party>

  // ===== Runs

  predicate HoldsKey(p: Party, xonly: Bytes) {
    exists key :: key in p.keys && XOnly(key) == xonly
  }

  /** Ideal signatures: a signature that verifies under an honest participant's key was made by a holder of that key. */
  ghost predicate Genuine(k: Crypto, w: World, xonly: Bytes, digest: Bytes) {
    (exists i :: i in w && HoldsKey(w[i], xonly)) ==>
      exists i, b :: i in w && HoldsKey(w[i], xonly) && b in w[i].authored && k.hash(MessagePreimage(Unsigned(b))) == digest
  }

  function FramesOf(e: Event): set<Bytes> {
    match e
    case BindRemote(_, m) => {m}
    case SendPartial(_, m) => {m}
    case BindPartial(_, m, n) => {m, n}
    case Complete(_, m, n) => {m, n}
    case _ => {}
  }

  /** The network may deliver any bytes; those that verify under an honest key are genuine. */
  ghost predicate FramesGenuine(k: Crypto, w: World, e: Event) {
    forall m :: m in FramesOf(e) && Framed(m) ==>
      Genuine(k, w, XOnly(Peer(e.x.authority.role, e.x.session.roster).key), k.hash(MessagePreimage(m[..|m| - 64])))
  }

  /** The widths of the source's types, and that a participant acts with its own key. */
  predicate WellTyped(p: Party, e: Event) {
    && SessionTyped(e.x.session) && |e.x.authority.participantId| == 32 && |e.x.window.policy| == 32
    && |e.x.window.anchors| == 32 && e.x.authority.key in p.keys
    && (e.CommitNonce? ==> |e.made| == 66) && (e.CommitPartial? ==> |e.made| == 32)
  }

  /** Every byte string hashed on the way from `p` to `q`: sessions, transcripts, signed and checked frames. */
  ghost predicate HashesWithin(k: Crypto, e: Event, p: Party, q: Party, hashed: set<Bytes>) {
    && SessionHashed(k, e.x.session) <= hashed
    && (forall m :: m in FramesOf(e) && Framed(m) ==> MessagePreimage(m[..|m| - 64]) in hashed)
    && (forall b :: b in q.authored - p.authored ==> MessagePreimage(Unsigned(b)) in hashed)
    && var i := e.x.session.effectId;
    && var n := VaultNonce(k, q, e.x.session);
    && (i in q.rows && n.Some? && q.rows[i].remoteNonce.Some? ==>
          TranscriptPreimage(q.rows[i].session, n.value, q.rows[i].remoteNonce.value) in hashed)
  }

  ghost predicate Step(k: Crypto, hashed: set<Bytes>, w: World, i: Bytes, e: Event, w': World) {
    && i in w && WellTyped(w[i], e) && FramesGenuine(k, w, e)
    && Apply(k, w[i], e).Ok? && w' == w[i := Apply(k, w[i], e).value]
    && HashesWithin(k, e, w[i], Apply(k, w[i], e).value, hashed)
  }

  predicate Start(w: World) {
    forall i :: i in w ==> |i| == 32 && w[i] == Party(i, w[i].keys, map[], map[], map[], {}, {})
  }

  /** A run of `|ws| - 1` steps that hashes nothing outside `hashed`. */
  ghost predicate Run(k: Crypto, hashed: set<Bytes>, ws: seq<World>, steps: seq<(Bytes, Event)>) {
    && |ws| == |steps| + 1 && Start(ws[0])
    && forall j :: 0 <= j < |steps| ==> Step(k, hashed, ws[j], steps[j].0, steps[j].1, ws[j + 1])
  }

  // ===== What holds in every participant

  ghost predicate IsTranscript(k: Crypto, hashed: set<Bytes>, session: Bytes, local: Bytes, remote: Bytes, t: Bytes) {
    && |local| == 66 && |remote| == 66 && local != remote
    && TranscriptPreimage(session, local, remote) in hashed && t == k.hash(TranscriptPreimage(session, local, remote))
  }

  ghost predicate RowSound(k: Crypto, hashed: set<Bytes>, p: Party, e: Bytes)
    requires e in p.rows
  {
    var r := p.rows[e];
    && e in p.sessions
    && var s := p.sessions[e];
    && SessionTyped(s) && s.effectId == e && SessionDigest(k, s) == Some(r.session) && SessionHashed(k, s) <= hashed
    && r.participant == p.id
    && (r.localNonce.Some? ==> r.localNonce == VaultNonce(k, p, s))
    && (r.remoteNonce.Some? ==> |r.remoteNonce.value| == 66)
    && (r.localPartial.Some? ==> r.localPartial == VaultPartial(k, p, s))
    && (r.transcript.Some? ==>
         && r.localPartial.Some? && r.remoteNonce.Some? && VaultNonce(k, p, s).Some?
         && IsTranscript(k, hashed, r.session, VaultNonce(k, p, s).value, r.remoteNonce.value, r.transcript.value))
  }

  predicate VaultSound(v: Reserved) {
    (v.nonce.Some? ==> |v.nonce.value| == 66) && (v.partial.Some? ==> |v.partial.value| == 32)
  }

  /** The row a signed body was taken from. */
  predicate Backs(r: Row, b: Body) {
    && r.session == b.session && r.role == b.role
    && (b.kind == NONCE ==> r.localNonce == Some(b.payload))
    && (b.kind == PARTIAL ==> |b.payload| == 64 && r.transcript == Some(b.payload[..32]) && r.localPartial == Some(b.payload[32..]))
  }

  ghost predicate AuthoredSound(k: Crypto, hashed: set<Bytes>, p: Party, b: Body) {
    && BodyFits(b) && b.participant == p.id && MessagePreimage(Unsigned(b)) in hashed
    && exists e :: e in p.rows && Backs(p.rows[e], b)
  }

  ghost predicate CompletionSound(k: Crypto, hashed: set<Bytes>, p: Party, c: Completion) {
    var e := c.session.effectId;
    && e in p.rows && SessionTyped(c.session) && SessionDigest(k, c.session) == Some(c.digest)
    && SessionHashed(k, c.session) <= hashed
    && Own(c.role, c.session.roster).id == p.id && Own(c.role, c.session.roster).key in p.keys
    && p.rows[e].session == c.digest && p.rows[e].transcript == Some(c.transcript)
    && p.rows[e].remoteNonce == Some(c.remote) && VaultNonce(k, p, c.session) == Some(c.local)
    && IsTranscript(k, hashed, c.digest, c.local, c.remote, c.transcript)
  }

  ghost predicate PartySound(k: Crypto, hashed: set<Bytes>, p: Party) {
    && (forall e :: e in p.rows ==> RowSound(k, hashed, p, e))
    && (forall i :: i in p.vault ==> VaultSound(p.vault[i]))
    && (forall b :: b in p.authored ==> AuthoredSound(k, hashed, p, b))
    && (forall c :: c in p.completed ==> CompletionSound(k, hashed, p, c))
  }

  // ===== Stability

  lemma VaultStays(k: Crypto, p: Party, q: Party, s: Session)
    requires Extends(p, q)
    ensures Stays(VaultNonce(k, p, s), VaultNonce(k, q, s)) && Stays(VaultPartial(k, p, s), VaultPartial(k, q, s))
  {
    hide Reservation;
  }

  lemma RowSoundStays(k: Crypto, hashed: set<Bytes>, p: Party, q: Party, e: Bytes)
    requires Extends(p, q) && e in p.rows && RowSound(k, hashed, p, e)
    requires q.rows[e] == p.rows[e].(fence := q.rows[e].fence, remotePartial := q.rows[e].remotePartial, verified := q.rows[e].verified)
    ensures RowSound(k, hashed, q, e)
  {
    hide SessionDigest, SessionTyped, SessionHashed, IsTranscript, VaultNonce, VaultPartial;
    VaultStays(k, p, q, p.sessions[e]);
  }

  lemma AuthoredSoundStays(k: Crypto, hashed: set<Bytes>, p: Party, q: Party, b: Body)
    requires Extends(p, q) && AuthoredSound(k, hashed, p, b)
    ensures AuthoredSound(k, hashed, q, b)
  {
    hide Unsigned, BodyFits;
    var e :| e in p.rows && Backs(p.rows[e], b);
    assert Backs(q.rows[e], b);
  }

  lemma CompletionSoundStays(k: Crypto, hashed: set<Bytes>, p: Party, q: Party, c: Completion)
    requires Extends(p, q) && CompletionSound(k, hashed, p, c)
    ensures CompletionSound(k, hashed, q, c)
  {
    hide SessionDigest, SessionTyped, SessionHashed, IsTranscript, VaultNonce;
    VaultStays(k, p, q, c.session);
  }

  /** What a step still has to show: the row it touched, the vault, and whatever it newly signed or finished. */
  lemma SoundByParts(k: Crypto, hashed: set<Bytes>, p: Party, q: Party, touched: Bytes)
    requires PartySound(k, hashed, p) && Extends(p, q)
    requires forall e :: e in q.rows && e != touched ==> e in p.rows && q.rows[e] == p.rows[e]
    requires touched in q.rows ==> RowSound(k, hashed, q, touched)
    requires forall i :: i in q.vault ==> VaultSound(q.vault[i])
    requires forall b :: b in q.authored - p.authored ==> AuthoredSound(k, hashed, q, b)
    requires forall c :: c in q.completed - p.completed ==> CompletionSound(k, hashed, q, c)
    ensures PartySound(k, hashed, q)
  {
    hide RowSound, VaultSound, AuthoredSound, CompletionSound;
    forall e | e in q.rows
      ensures RowSound(k, hashed, q, e)
    {
      if e != touched {
        RowSoundStays(k, hashed, p, q, e);
      }
    }
    forall b | b in q.authored
      ensures AuthoredSound(k, hashed, q, b)
    {
      if b in p.authored {
        AuthoredSoundStays(k, hashed, p, q, b);
      }
    }
    forall c | c in q.completed
      ensures CompletionSound(k, hashed, q, c)
    {
      if c in p.completed {
        CompletionSoundStays(k, hashed, p, q, c);
      }
    }
  }

  // ===== Every commit keeps a participant sound

  lemma SameReservation(k: Crypto, a: Session, b: Session, id: Bytes)
    requires SameSession(a, b) && SessionDigest(k, a).Some? && SessionDigest(k, b).Some?
    ensures Reservation(k, a, id) == Reservation(k, b, id)
  {
    hide PermitPreimage, SessionPreimage, RosterPreimage;
    assert ClaimTemplate(a) == ClaimTemplate(b);
    assert forall r, c :: PermitPreimage(a, id, r, c) == PermitPreimage(b, id, r, c) by { PermitIgnoresFence(a, b, id); }
  }

  lemma PermitIgnoresFence(a: Session, b: Session, id: Bytes)
    requires SameSession(a, b)
    ensures forall r, c :: PermitPreimage(a, id, r, c) == PermitPreimage(b, id, r, c)
  {
  }

  /** The session a context names and the one its row was opened for share one reservation. */
  lemma OneReservation(k: Crypto, hashed: set<Bytes>, p: Party, s: Session)
    requires Wide(k.hash) && InjectiveOn(k.hash, hashed)
    requires s.effectId in p.rows && RowSound(k, hashed, p, s.effectId)
    requires SessionTyped(s) && SessionDigest(k, s) == Some(p.rows[s.effectId].session) && SessionHashed(k, s) <= hashed
    ensures VaultNonce(k, p, s) == VaultNonce(k, p, p.sessions[s.effectId])
    ensures VaultPartial(k, p, s) == VaultPartial(k, p, p.sessions[s.effectId])
  {
    hide SessionDigest, SessionTyped, SessionHashed, Reservation, IsTranscript;
    var t := p.sessions[s.effectId];
    assert InjectiveOn(k.hash, SessionHashed(k, s) + SessionHashed(k, t));
    SessionDigestBinds(k, s, t);
    SameReservation(k, s, t, p.id);
  }

  lemma OpenedFacts(k: Crypto, p: Party, x: SigningContext)
    requires Opened(k, p, x).Ok?
    ensures var q := Opened(k, p, x).value; var e := x.session.effectId;
      && Authorized(k, x).Some? && Authorized(k, x) == SessionDigest(k, x.session)
      && e in q.rows && q.rows[e].session == Authorized(k, x).value && q.rows[e].role == x.authority.role
      && x.authority.participantId == p.id
      && q == p.(rows := q.rows, sessions := q.sessions)
      && (forall i :: i in q.rows && i != e ==> i in p.rows && q.rows[i] == p.rows[i])
  {
    hide SessionDigest, TimingMatches, AuthorityMatches, ScopeMatches, BuildContext;
  }

  lemma OpenedSound(k: Crypto, hashed: set<Bytes>, p: Party, x: SigningContext)
    requires PartySound(k, hashed, p) && Opened(k, p, x).Ok?
    requires SessionTyped(x.session) && SessionHashed(k, x.session) <= hashed
    ensures PartySound(k, hashed, Opened(k, p, x).value)
  {
    hide Authorized, SessionDigest, SessionTyped, SessionHashed, VaultNonce, VaultPartial, IsTranscript, VaultSound,
         AuthoredSound, CompletionSound, Extends;
    var q := Opened(k, p, x).value;
    OpenedFacts(k, p, x);
    OpenedExtends(k, p, x);
    SoundByParts(k, hashed, p, q, x.session.effectId);
  }

  /** What every commit may rely on. */
  ghost predicate Ready(k: Crypto, hashed: set<Bytes>, p: Party, e: Event) {
    && Wide(k.hash) && InjectiveOn(k.hash, hashed) && PartySound(k, hashed, p) && WellTyped(p, e)
    && Apply(k, p, e).Ok? && HashesWithin(k, e, p, Apply(k, p, e).value, hashed)
  }

  /** The vault commits change one reservation and nothing else. */
  lemma VaultStepShape(k: Crypto, p: Party, e: Event)
    requires Apply(k, p, e).Ok? && (e.Reserve? || e.CommitNonce? || e.CommitPartial?)
    requires (e.CommitNonce? ==> |e.made| == 66) && (e.CommitPartial? ==> |e.made| == 32)
    requires forall i :: i in p.vault ==> VaultSound(p.vault[i])
    ensures var q := Apply(k, p, e).value; q == p.(vault := q.vault) && forall i :: i in q.vault ==> VaultSound(q.vault[i])
  {
    hide Authorized, ReservationOf;
  }

  lemma VaultStepSound(k: Crypto, hashed: set<Bytes>, p: Party, e: Event)
    requires Ready(k, hashed, p, e) && (e.Reserve? || e.CommitNonce? || e.CommitPartial?)
    ensures PartySound(k, hashed, Apply(k, p, e).value)
  {
    hide Apply, Extends, RowSound, VaultSound, AuthoredSound, CompletionSound, HashesWithin, SessionTyped;
    var q := Apply(k, p, e).value;
    ApplyExtends(k, p, e);
    VaultStepShape(k, p, e);
    var i := e.x.session.effectId;
    if i in p.rows {
      RowsSame(p, q, i);
      RowSoundStays(k, hashed, p, q, i);
    }
    SoundByParts(k, hashed, p, q, i);
  }

  lemma RowsSame(p: Party, q: Party, e: Bytes)
    requires q.rows == p.rows && e in p.rows
    ensures q.rows[e] == p.rows[e].(fence := q.rows[e].fence, remotePartial := q.rows[e].remotePartial, verified := q.rows[e].verified)
  {
  }

  /** The state after opening, with its row and the shared reservation. */
  lemma ReadyOpened(k: Crypto, hashed: set<Bytes>, p: Party, e: Event)
    requires Ready(k, hashed, p, e) && Opened(k, p, e.x).Ok?
    ensures var q := Opened(k, p, e.x).value; var i := e.x.session.effectId;
      && PartySound(k, hashed, q) && Extends(p, q) && i in q.rows && RowSound(k, hashed, q, i)
      && VaultNonce(k, q, e.x.session) == VaultNonce(k, q, q.sessions[i])
      && VaultPartial(k, q, e.x.session) == VaultPartial(k, q, q.sessions[i])
  {
    hide Apply, Opened, Extends, SessionTyped, SessionHashed, SessionDigest, Authorized, VaultNonce, VaultPartial,
         AuthoredSound, CompletionSound, VaultSound, IsTranscript;
    OpenedFacts(k, p, e.x);
    OpenedSound(k, hashed, p, e.x);
    OpenedExtends(k, p, e.x);
    OneReservation(k, hashed, Opened(k, p, e.x).value, e.x.session);
  }

  lemma HeldFacts(k: Crypto, p: Party, x: SigningContext)
    requires Held(k, p, x).Ok?
    ensures var e := x.session.effectId;
      && Held(k, p, x).value == p
      && Authorized(k, x).Some? && Authorized(k, x) == SessionDigest(k, x.session)
      && e in p.rows && p.rows[e].session == Authorized(k, x).value && p.rows[e].role == x.authority.role
      && x.authority.participantId == p.id
  {
    hide SessionDigest, TimingMatches, AuthorityMatches, ScopeMatches, BuildContext;
  }

  lemma ReadyHeld(k: Crypto, hashed: set<Bytes>, p: Party, e: Event)
    requires Ready(k, hashed, p, e) && Held(k, p, e.x).Ok?
    ensures var i := e.x.session.effectId;
      && i in p.rows && RowSound(k, hashed, p, i)
      && VaultNonce(k, p, e.x.session) == VaultNonce(k, p, p.sessions[i])
      && VaultPartial(k, p, e.x.session) == VaultPartial(k, p, p.sessions[i])
  {
    hide Apply, Held, Extends, SessionTyped, SessionHashed, SessionDigest, Authorized, VaultNonce, VaultPartial,
         AuthoredSound, CompletionSound, VaultSound, IsTranscript;
    HeldFacts(k, p, e.x);
    OneReservation(k, hashed, p, e.x.session);
  }

  /** Replacing the row of a sound, opened state by a sound one. */
  lemma SetRowSound(k: Crypto, hashed: set<Bytes>, q: Party, x: SigningContext, r: Row)
    requires PartySound(k, hashed, q) && x.session.effectId in q.rows && RowExtends(RowOf(q, x), r)
    requires RowSound(k, hashed, SetRow(q, x, r), x.session.effectId)
    ensures PartySound(k, hashed, SetRow(q, x, r))
  {
    hide RowSound, VaultSound, AuthoredSound, CompletionSound, Extends, RowExtends;
    SetRowExtends(q, x, r);
    SoundByParts(k, hashed, q, SetRow(q, x, r), x.session.effectId);
  }

  lemma SetRowVault(k: Crypto, q: Party, x: SigningContext, r: Row, s: Session)
    ensures VaultNonce(k, SetRow(q, x, r), s) == VaultNonce(k, q, s)
    ensures VaultPartial(k, SetRow(q, x, r), s) == VaultPartial(k, q, s)
  {
  }

  lemma RecordNonceSound(k: Crypto, hashed: set<Bytes>, p: Party, e: Event)
    requires Ready(k, hashed, p, e) && e.RecordNonce?
    ensures PartySound(k, hashed, Apply(k, p, e).value)
  {
    hide Opened, Extends, SessionTyped, SessionHashed, SessionDigest, Authorized, VaultNonce, VaultPartial, PartySound,
         IsTranscript, VaultBound, HashesWithin;
    var q, x := Opened(k, p, e.x).value, e.x;
    ReadyOpened(k, hashed, p, e);
    var r := RowOf(q, x).(localNonce := VaultNonce(k, q, x.session));
    SetRowVault(k, q, x, r, q.sessions[x.session.effectId]);
    SetRowSound(k, hashed, q, x, r);
  }

  lemma BindRemoteSound(k: Crypto, hashed: set<Bytes>, p: Party, e: Event)
    requires Ready(k, hashed, p, e) && e.BindRemote?
    ensures PartySound(k, hashed, Apply(k, p, e).value)
  {
    hide Opened, Extends, SessionTyped, SessionHashed, SessionDigest, Authorized, VaultNonce, VaultPartial, PartySound,
         IsTranscript, HashesWithin, VerifyPeer, Framed;
    var q, x := Opened(k, p, e.x).value, e.x;
    ReadyOpened(k, hashed, p, e);
    PeerPayload(k, x, e.nonceFrame, NONCE);
    var r := RowOf(q, x).(remoteNonce := Some(BodyOf(e.nonceFrame).payload));
    SetRowVault(k, q, x, r, q.sessions[x.session.effectId]);
    SetRowSound(k, hashed, q, x, r);
  }

  lemma PeerPayload(k: Crypto, x: SigningContext, m: Bytes, kind: Byte)
    requires FromPeer(k, x, m, kind)
    ensures BodyOf(m).kind == kind && |BodyOf(m).payload| == PayloadSize(kind)
  {
    hide Authorized;
    VerifiedBody(k, ScopeOf(x, Authorized(k, x).value), m, kind, x.authority.role, x.session.roster);
  }

  lemma RecordPartialSound(k: Crypto, hashed: set<Bytes>, p: Party, e: Event)
    requires Ready(k, hashed, p, e) && e.RecordPartial?
    ensures PartySound(k, hashed, Apply(k, p, e).value)
  {
    hide Opened, Extends, SessionTyped, SessionHashed, SessionDigest, Authorized, VaultNonce, VaultPartial, PartySound,
         VaultBound;
    var q, x := Opened(k, p, e.x).value, e.x;
    ReadyOpened(k, hashed, p, e);
    NonceSized(k, hashed, q, x.session);
    var r := RowOf(Apply(k, p, e).value, x);
    SetRowVault(k, q, x, r, q.sessions[x.session.effectId]);
    SetRowVault(k, q, x, r, x.session);
    SetRowSound(k, hashed, q, x, r);
  }

  lemma NonceSized(k: Crypto, hashed: set<Bytes>, p: Party, s: Session)
    requires PartySound(k, hashed, p)
    ensures VaultNonce(k, p, s).Some? ==> |VaultNonce(k, p, s).value| == 66
    ensures VaultPartial(k, p, s).Some? ==> |VaultPartial(k, p, s).value| == 32
  {
    hide RowSound, AuthoredSound, CompletionSound, Reservation;
  }

  lemma BindPartialSound(k: Crypto, hashed: set<Bytes>, p: Party, e: Event)
    requires Ready(k, hashed, p, e) && e.BindPartial?
    ensures PartySound(k, hashed, Apply(k, p, e).value)
  {
    hide Opened, Extends, SessionTyped, SessionHashed, SessionDigest, Authorized, VaultNonce, VaultPartial, PartySound,
         IsTranscript, HashesWithin, PeerFramesMatch;
    var q, x := Opened(k, p, e.x).value, e.x;
    ReadyOpened(k, hashed, p, e);
    var r := RowOf(Apply(k, p, e).value, x);
    SetRowVault(k, q, x, r, q.sessions[x.session.effectId]);
    SetRowSound(k, hashed, q, x, r);
  }

  lemma TakeOverSound(k: Crypto, hashed: set<Bytes>, p: Party, e: Event)
    requires Ready(k, hashed, p, e) && e.TakeOver?
    ensures PartySound(k, hashed, Apply(k, p, e).value)
  {
    hide SessionTyped, SessionHashed, SessionDigest, Authorized, VaultNonce, VaultPartial, IsTranscript, HashesWithin,
         AuthoredSound, CompletionSound, VaultSound;
    var r := RowOf(Apply(k, p, e).value, e.x);
    SetRowVault(k, p, e.x, r, p.sessions[e.x.session.effectId]);
    SetRowSound(k, hashed, p, e.x, r);
  }

  /** A body signed from a sound row is sound. */
  lemma SignedSound(k: Crypto, hashed: set<Bytes>, q: Party, x: SigningContext, b: Body)
    requires PartySound(k, hashed, q) && x.session.effectId in q.rows
    requires BodyFits(b) && b.participant == q.id && Backs(RowOf(q, x), b) && MessagePreimage(Unsigned(b)) in hashed
    ensures PartySound(k, hashed, q.(authored := q.authored + {b}))
  {
    hide RowSound, VaultSound, CompletionSound, BodyFits, Backs, Unsigned;
    var s := q.(authored := q.authored + {b});
    assert Extends(q, s);
    assert AuthoredSound(k, hashed, s, b);
    RowsSame(q, s, x.session.effectId);
    RowSoundStays(k, hashed, q, s, x.session.effectId);
    SoundByParts(k, hashed, q, s, x.session.effectId);
  }

  lemma SessionDigestWide(k: Crypto, s: Session)
    requires Wide(k.hash) && SessionDigest(k, s).Some?
    ensures |SessionDigest(k, s).value| == 32
  {
    hide SessionPreimage, BuildContext;
  }

  lemma SendNonceSound(k: Crypto, hashed: set<Bytes>, p: Party, e: Event)
    requires Ready(k, hashed, p, e) && e.SendNonce?
    ensures PartySound(k, hashed, Apply(k, p, e).value)
  {
    hide Held, Extends, SessionTyped, SessionHashed, SessionDigest, Authorized, VaultNonce, VaultPartial, PartySound,
         IsTranscript, VaultBound;
    var q, x := p, e.x;
    ReadyHeld(k, hashed, p, e);
    HeldFacts(k, p, x);
    SessionDigestWide(k, x.session);
    NonceSized(k, hashed, q, x.session);
    var b := BodyFor(x, RowOf(q, x).session, NONCE, RowOf(q, x).localNonce.value);
    if b in p.authored {
      assert q.authored + {b} == q.authored;
      assert Apply(k, p, e).value == q;
    } else {
      SignedSound(k, hashed, q, x, b);
    }
  }

  lemma SendPartialSound(k: Crypto, hashed: set<Bytes>, p: Party, e: Event)
    requires Ready(k, hashed, p, e) && e.SendPartial?
    ensures PartySound(k, hashed, Apply(k, p, e).value)
  {
    hide Held, Extends, SessionTyped, SessionHashed, SessionDigest, Authorized, VaultNonce, VaultPartial, PartySound,
         VaultBound, FromPeer;
    var q, x := p, e.x;
    ReadyHeld(k, hashed, p, e);
    HeldFacts(k, p, x);
    SessionDigestWide(k, x.session);
    NonceSized(k, hashed, q, x.session);
    var r := RowOf(q, x);
    var payload := r.transcript.value + r.localPartial.value;
    assert payload[..32] == r.transcript.value && payload[32..] == r.localPartial.value;
    var b := BodyFor(x, r.session, PARTIAL, payload);
    if b in p.authored {
      assert q.authored + {b} == q.authored;
      assert Apply(k, p, e).value == q;
    } else {
      SignedSound(k, hashed, q, x, b);
    }
  }

  function NewCompletion(k: Crypto, q: Party, e: Event): Completion
    requires e.Complete? && e.x.session.effectId in q.rows && Framed(e.nonceFrame) && Framed(e.partialFrame)
    requires VaultNonce(k, q, e.x.session).Some? && RowOf(q, e.x).remoteNonce.Some? && RowOf(q, e.x).transcript.Some?
  {
    var r := RowOf(q, e.x);
    Completion(e.x.session, r.session, e.x.authority.role, VaultNonce(k, q, e.x.session).value, r.remoteNonce.value,
      r.transcript.value, e.x.window.policy, e.x.window.anchors, BodyOf(e.nonceFrame), BodyOf(e.partialFrame))
  }

  /** Finishing marks the row and records one completion, on top of the state it finds. */
  lemma CompleteShape(k: Crypto, p: Party, e: Event)
    requires Apply(k, p, e).Ok? && e.Complete?
    ensures Held(k, p, e.x).Ok?
    ensures var q := p; var x := e.x;
      && x.session.effectId in q.rows
      && var r := RowOf(q, x);
      && PeerFramesMatch(k, x, r, e.nonceFrame, e.partialFrame) && r.remoteNonce.Some? && r.transcript.Some?
      && VaultNonce(k, q, x.session).Some?
      && TranscriptDigest(k, r.session, VaultNonce(k, q, x.session).value, r.remoteNonce.value) == r.transcript
      && Apply(k, p, e).value
           == SetRow(q, x, r.(verified := true)).(completed := q.completed + {NewCompletion(k, q, e)})
  {
    hide FromPeer, VaultNonce, VaultPartial, VaultBound, TranscriptDigest, Held;
    HeldFacts(k, p, e.x);
  }

  lemma AuthorityOwns(k: Crypto, x: SigningContext)
    requires Authorized(k, x).Some?
    ensures Own(x.authority.role, x.session.roster).id == x.authority.participantId
    ensures Own(x.authority.role, x.session.roster).key == x.authority.key
  {
    hide SessionDigest, TimingMatches, ScopeMatches, BuildContext;
  }

  lemma CompletionAdded(k: Crypto, hashed: set<Bytes>, q: Party, c: Completion)
    requires PartySound(k, hashed, q) && CompletionSound(k, hashed, q, c)
    ensures PartySound(k, hashed, q.(completed := q.completed + {c}))
  {
    hide RowSound, VaultSound, AuthoredSound, Extends, CompletionSound;
    var s, e := q.(completed := q.completed + {c}), c.session.effectId;
    CompletionExtends(q, c);
    CompletionSoundStays(k, hashed, q, s, c);
    if e in q.rows {
      RowsSame(q, s, e);
      RowSoundStays(k, hashed, q, s, e);
    }
    SoundByParts(k, hashed, q, s, e);
  }

  lemma CompletionExtends(q: Party, c: Completion)
    ensures Extends(q, q.(completed := q.completed + {c}))
  {
  }

  /** Marking a row verified keeps it sound. */
  lemma MarkedSound(k: Crypto, hashed: set<Bytes>, q: Party, x: SigningContext)
    requires PartySound(k, hashed, q) && x.session.effectId in q.rows
    ensures PartySound(k, hashed, SetRow(q, x, RowOf(q, x).(verified := true)))
  {
    hide SessionTyped, SessionHashed, SessionDigest, IsTranscript, AuthoredSound, CompletionSound, VaultSound;
    var r := RowOf(q, x).(verified := true);
    var s := SetRow(q, x, r);
    SetRowExtends(q, x, r);
    RowSoundStays(k, hashed, q, s, x.session.effectId);
    SetRowSound(k, hashed, q, x, r);
  }

  lemma NewCompletionSound(k: Crypto, hashed: set<Bytes>, p: Party, e: Event)
    requires Ready(k, hashed, p, e) && e.Complete?
    ensures Held(k, p, e.x).Ok?
    ensures var q := p;
      && e.x.session.effectId in q.rows && Framed(e.nonceFrame) && Framed(e.partialFrame)
      && VaultNonce(k, q, e.x.session).Some? && RowOf(q, e.x).remoteNonce.Some? && RowOf(q, e.x).transcript.Some?
      && CompletionSound(k, hashed, q, NewCompletion(k, q, e))
  {
    hide Held, SessionTyped, SessionHashed, SessionDigest, Authorized, VaultNonce, VaultPartial, PartySound, Apply,
         TranscriptPreimage, VerifyPeer, BodyOf;
    CompleteShape(k, p, e);
    var q, x := p, e.x;
    HeldFacts(k, p, x);
    AuthorityOwns(k, x);
    NonceSized(k, hashed, q, x.session);
    PeerPayload(k, x, e.nonceFrame, NONCE);
    VaultUnchanged(k, p, e);
  }

  lemma VaultUnchanged(k: Crypto, p: Party, e: Event)
    requires Apply(k, p, e).Ok? && e.Complete?
    ensures Held(k, p, e.x).Ok?
    ensures VaultNonce(k, Apply(k, p, e).value, e.x.session) == VaultNonce(k, p, e.x.session)
  {
    hide Held, Apply, PeerFramesMatch, TranscriptDigest;
    CompleteShape(k, p, e);
  }

  lemma CompleteSound(k: Crypto, hashed: set<Bytes>, p: Party, e: Event)
    requires Ready(k, hashed, p, e) && e.Complete?
    ensures PartySound(k, hashed, Apply(k, p, e).value)
  {
    hide Held, Extends, SessionTyped, SessionHashed, VaultNonce, PartySound, Apply, PeerFramesMatch, TranscriptDigest,
         CompletionSound, NewCompletion, SessionDigest, Framed;
    NewCompletionSound(k, hashed, p, e);
    CompleteShape(k, p, e);
    var q := p;
    var s := SetRow(q, e.x, RowOf(q, e.x).(verified := true));
    MarkedSound(k, hashed, q, e.x);
    SetRowExtends(q, e.x, RowOf(q, e.x).(verified := true));
    CompletionSoundStays(k, hashed, q, s, NewCompletion(k, q, e));
    CompletionAdded(k, hashed, s, NewCompletion(k, q, e));
  }

  lemma ApplySound(k: Crypto, hashed: set<Bytes>, p: Party, e: Event)
    requires Ready(k, hashed, p, e)
    ensures PartySound(k, hashed, Apply(k, p, e).value)
  {
    match e {
      case Open(x) =>
        hide Opened, PartySound, SessionTyped, SessionHashed;
        OpenedSound(k, hashed, p, x);
      case Reserve(_) => hide *; VaultStepSound(k, hashed, p, e);
      case CommitNonce(_, _) => hide *; VaultStepSound(k, hashed, p, e);
      case RecordNonce(_) => hide *; RecordNonceSound(k, hashed, p, e);
      case SendNonce(_) => hide *; SendNonceSound(k, hashed, p, e);
      case BindRemote(_, _) => hide *; BindRemoteSound(k, hashed, p, e);
      case CommitPartial(_, _) => hide *; VaultStepSound(k, hashed, p, e);
      case RecordPartial(_) => hide *; RecordPartialSound(k, hashed, p, e);
      case SendPartial(_, _) => hide *; SendPartialSound(k, hashed, p, e);
      case BindPartial(_, _, _) => hide *; BindPartialSound(k, hashed, p, e);
      case Complete(_, _, _) => hide *; CompleteSound(k, hashed, p, e);
      case TakeOver(_) => hide *; TakeOverSound(k, hashed, p, e);
    }
  }

  // ===== What holds between participants

  function OtherRole(r: Role): Role {
    if r == Maker then Taker else Maker
  }

  /** The frames a round rests on: the peer's, for this session, policy and anchors, with this nonce and transcript. */
  predicate FramesFit(c: Completion) {
    var peer := Peer(c.role, c.session.roster).id;
    && c.nonceFrame == Body(NONCE, OtherRole(c.role), c.digest, peer, c.policy, c.anchors, c.remote)
    && c.partialFrame.(payload := []) == Body(PARTIAL, OtherRole(c.role), c.digest, peer, c.policy, c.anchors, [])
    && |c.partialFrame.payload| == 64 && c.partialFrame.payload[..32] == c.transcript
  }

  predicate PeerKnown(w: World, c: Completion) {
    var peer := Peer(c.role, c.session.roster);
    peer.id in w && peer.key in w[peer.id].keys
  }

  predicate PeerAuthored(w: World, c: Completion) {
    PeerKnown(w, c) ==>
      var peer := w[Peer(c.role, c.session.roster).id];
      c.nonceFrame in peer.authored && c.partialFrame in peer.authored
  }

  ghost predicate WorldSound(k: Crypto, hashed: set<Bytes>, w: World) {
    && (forall i :: i in w ==> w[i].id == i && PartySound(k, hashed, w[i]))
    && (forall i, c :: i in w && c in w[i].completed ==> FramesFit(c) && PeerAuthored(w, c))
  }

  /** A frame that verified under an honest participant's key was signed by that very participant. */
  lemma GenuineAuthored(k: Crypto, hashed: set<Bytes>, w: World, x: SigningContext, m: Bytes, kind: Byte)
    requires InjectiveOn(k.hash, hashed) && WorldSound(k, hashed, w) && FromPeer(k, x, m, kind)
    requires MessagePreimage(m[..|m| - 64]) in hashed
    requires var peer := Peer(x.authority.role, x.session.roster);
      && peer.id in w && peer.key in w[peer.id].keys
      && Genuine(k, w, XOnly(peer.key), k.hash(MessagePreimage(m[..|m| - 64])))
    ensures BodyOf(m) in w[Peer(x.authority.role, x.session.roster).id].authored
  {
    var u, peer := m[..|m| - 64], Peer(x.authority.role, x.session.roster);
    hide Authorized, Unsigned, RowSound, CompletionSound, VaultSound, Framed, BodyOf, BodyFits;
    assert HoldsKey(w[peer.id], XOnly(peer.key));
    var i, b :| i in w && HoldsKey(w[i], XOnly(peer.key)) && b in w[i].authored
      && k.hash(MessagePreimage(Unsigned(b))) == k.hash(MessagePreimage(u));
    assert AuthoredSound(k, hashed, w[i], b);
    assert MessagePreimage(Unsigned(b)) == MessagePreimage(u);
    var d := ToAscii(MESSAGE_DOMAIN);
    SplitEqual(d, Unsigned(b), d, u);
    Reassembled(m);
    VerifiedBody(k, ScopeOf(x, Authorized(k, x).value), m, kind, x.authority.role, x.session.roster);
    UnsignedInjective(b, BodyOf(m));
  }
}
