/**
 States in which a participant's claim round can still be finished, however
 often it was interrupted: every commit of the round is accepted there and
 leads to another such state.
 */
module ClaimTrack {
  import opened Wire
  import opened ActuationScope
  import opened ClaimSession
  import opened ClaimWire
  import opened ClaimStore

  /** What the peer contributes to a round: its nonce and its partial signature. */
  datatype Counterpart = Counterpart(nonce: Bytes, partial: Bytes)

  /** The context's own row is there, under its fencing epoch. */
  predicate OwnsRow(p: Party, x: SigningContext, digest: Bytes) {
    && x.authority.participantId == p.id && x.session.effectId in p.rows
    && var r := RowOf(p, x);
    && r.routeId == x.session.routeId && r.fence == x.scope.fenceEpoch && r.participant == p.id
    && r.role == x.authority.role && r.authority == x.authority.digest && r.session == digest
  }

  function ReservedFor(k: Crypto, p: Party, x: SigningContext): Option<Reserved> {
    match ReservationOf(k, p, x.session)
    case None => None
    case Some(i) => if i in p.vault then Some(p.vault[i]) else None
  }

  /** The reservation holds this participant's own nonce, or none yet. */
  predicate ReservedOnTrack(v: Reserved, anchors: Bytes, c: Counterpart) {
    && v.anchors == anchors
    && (v.nonce.Some? ==> |v.nonce.value| == 66 && v.nonce.value != c.nonce)
    && (v.partial.Some? ==> v.nonce.Some? && |v.partial.value| == 32)
  }

  function Transcript(k: Crypto, digest: Bytes, nonce: Bytes, c: Counterpart): Bytes {
    k.hash(TranscriptPreimage(digest, nonce, c.nonce))
  }

  /** Each column is empty or holds what the reservation and the peer give it. */
  predicate RowOnTrack(k: Crypto, r: Row, v: Option<Reserved>, digest: Bytes, c: Counterpart) {
    && (r.localNonce.Some? ==> v.Some? && r.localNonce == v.value.nonce)
    && (r.remoteNonce.Some? ==> r.remoteNonce.value == c.nonce)
    && (r.localPartial.Some? <==> r.transcript.Some?)
    && (r.localPartial.Some? ==>
         && r.remoteNonce.Some? && v.Some? && v.value.nonce.Some? && r.localPartial == v.value.partial
         && r.transcript.value == Transcript(k, digest, v.value.nonce.value, c))
    && (r.remotePartial.Some? ==> r.remotePartial.value == c.partial)
  }

  predicate OnTrack(k: Crypto, p: Party, x: SigningContext, digest: Bytes, c: Counterpart) {
    && Authorized(k, x) == Some(digest) && x.authority.participantId == p.id && x.window.anchors != ZERO32
    && ReservationOf(k, p, x.session).Some?
    && (ReservedFor(k, p, x).Some? ==> ReservedOnTrack(ReservedFor(k, p, x).value, x.window.anchors, c))
    && (x.session.effectId in p.rows ==>
         OwnsRow(p, x, digest) && RowOnTrack(k, RowOf(p, x), ReservedFor(k, p, x), digest, c))
  }

  /** A participant that has done nothing for this session yet. */
  predicate Untouched(k: Crypto, p: Party, x: SigningContext) {
    && x.authority.participantId == p.id && x.session.effectId !in p.rows
    && ReservationOf(k, p, x.session).Some? && ReservedFor(k, p, x).None?
    && x.window.anchors != ZERO32
  }

  lemma UntouchedOnTrack(k: Crypto, p: Party, x: SigningContext, digest: Bytes, c: Counterpart)
    requires Untouched(k, p, x) && Authorized(k, x) == Some(digest)
    ensures OnTrack(k, p, x, digest, c)
  {
    hide Authorized, Reservation;
  }

  predicate HasRow(p: Party, x: SigningContext) {
    x.session.effectId in p.rows
  }

  predicate HasNonce(k: Crypto, p: Party, x: SigningContext) {
    ReservedFor(k, p, x).Some? && ReservedFor(k, p, x).value.nonce.Some?
  }

  /** The nonce the round will use: the reserved one, or the one made now. */
  function NonceUsed(k: Crypto, p: Party, x: SigningContext, made: Bytes): Bytes {
    if HasNonce(k, p, x) then ReservedFor(k, p, x).value.nonce.value else made
  }

  function PartialUsed(k: Crypto, p: Party, x: SigningContext, made: Bytes): Bytes {
    var v := ReservedFor(k, p, x);
    if v.Some? && v.value.partial.Some? then v.value.partial.value else made
  }

  /** A commit that belongs to this round; its randomness is arbitrary but for its size. */
  predicate OfRound(k: Crypto, x: SigningContext, c: Counterpart, e: Event) {
    && e.x == x
    && match e
       case CommitNonce(_, made) => |made| == 66 && made != c.nonce
       case CommitPartial(_, made) => |made| == 32
       case BindRemote(_, m) => Framed(m) && BodyOf(m).payload == c.nonce
       case BindPartial(_, m, n) => Framed(n) && |BodyOf(n).payload| == 64 && BodyOf(n).payload[32..] == c.partial
       case TakeOver(_) => false
       case _ => true
  }

  // ===== One commit at a time

  lemma OpenTracks(k: Crypto, p: Party, x: SigningContext, digest: Bytes, c: Counterpart)
    requires OnTrack(k, p, x, digest, c)
    ensures Opened(k, p, x).Ok?
    ensures var q := Opened(k, p, x).value;
      && OnTrack(k, q, x, digest, c) && HasRow(q, x) && ReservedFor(k, q, x) == ReservedFor(k, p, x)
      && (HasRow(p, x) ==> q == p) && (!HasRow(p, x) ==> RowOf(q, x).localNonce.None? && RowOf(q, x).localPartial.None?)
  {
    hide Authorized, Reservation, Transcript;
  }

  lemma ReserveTracks(k: Crypto, p: Party, x: SigningContext, digest: Bytes, c: Counterpart)
    requires OnTrack(k, p, x, digest, c)
    ensures Apply(k, p, Reserve(x)).Ok?
    ensures var q := Apply(k, p, Reserve(x)).value;
      && OnTrack(k, q, x, digest, c) && ReservedFor(k, q, x).Some? && q == p.(vault := q.vault)
      && (ReservedFor(k, p, x).Some? ==> q == p)
      && (ReservedFor(k, p, x).None? ==> ReservedFor(k, q, x) == Some(Reserved(x.window.anchors, None, None)))
  {
    hide Authorized, Reservation, Transcript;
  }

  lemma CommitNonceTracks(k: Crypto, p: Party, x: SigningContext, digest: Bytes, c: Counterpart, made: Bytes)
    requires OnTrack(k, p, x, digest, c) && ReservedFor(k, p, x).Some? && |made| == 66 && made != c.nonce
    ensures Apply(k, p, CommitNonce(x, made)).Ok?
    ensures var q := Apply(k, p, CommitNonce(x, made)).value;
      && OnTrack(k, q, x, digest, c) && HasNonce(k, q, x) && q == p.(vault := q.vault)
      && ReservedFor(k, q, x).value.nonce.value == NonceUsed(k, p, x, made)
      && ReservedFor(k, q, x).value.partial == ReservedFor(k, p, x).value.partial
      && (HasNonce(k, p, x) ==> q == p)
  {
    hide Authorized, Reservation, Transcript;
  }

  lemma RecordNonceTracks(k: Crypto, p: Party, x: SigningContext, digest: Bytes, c: Counterpart)
    requires OnTrack(k, p, x, digest, c) && HasNonce(k, p, x)
    ensures Apply(k, p, RecordNonce(x)).Ok?
    ensures var q := Apply(k, p, RecordNonce(x)).value;
      && OnTrack(k, q, x, digest, c) && ReservedFor(k, q, x) == ReservedFor(k, p, x) && HasRow(q, x) && RowOf(q, x).localNonce.Some?
  {
    hide Authorized, Reservation, Transcript, Opened;
    OpenTracks(k, p, x, digest, c);
  }

  lemma SendNonceTracks(k: Crypto, p: Party, x: SigningContext, digest: Bytes, c: Counterpart)
    requires OnTrack(k, p, x, digest, c) && HasRow(p, x) && RowOf(p, x).localNonce.Some?
    ensures Apply(k, p, SendNonce(x))
         == Ok(p.(authored := p.authored + {BodyFor(x, digest, NONCE, RowOf(p, x).localNonce.value)}))
    ensures var q := Apply(k, p, SendNonce(x)).value; OnTrack(k, q, x, digest, c) && ReservedFor(k, q, x) == ReservedFor(k, p, x)
  {
    hide Authorized, Reservation, Transcript, BodyFor;
  }

  lemma BindRemoteTracks(k: Crypto, p: Party, x: SigningContext, digest: Bytes, c: Counterpart, m: Bytes)
    requires OnTrack(k, p, x, digest, c) && FromPeer(k, x, m, NONCE) && BodyOf(m).payload == c.nonce
    ensures Apply(k, p, BindRemote(x, m)).Ok?
    ensures var q := Apply(k, p, BindRemote(x, m)).value;
      && OnTrack(k, q, x, digest, c) && ReservedFor(k, q, x) == ReservedFor(k, p, x) && HasRow(q, x) && RowOf(q, x).remoteNonce.Some?
      && (HasRow(p, x) ==> RowOf(q, x).localPartial == RowOf(p, x).localPartial)
      && (!HasRow(p, x) ==> RowOf(q, x).localPartial.None?)
  {
    hide Authorized, Reservation, Transcript, Opened, FromPeer, BodyOf, Framed;
    OpenTracks(k, p, x, digest, c);
  }

  lemma CommitPartialTracks(k: Crypto, p: Party, x: SigningContext, digest: Bytes, c: Counterpart, made: Bytes)
    requires OnTrack(k, p, x, digest, c) && HasNonce(k, p, x) && HasRow(p, x) && RowOf(p, x).remoteNonce.Some?
    requires k.isNonce(c.nonce) && |made| == 32
    ensures Apply(k, p, CommitPartial(x, made)).Ok?
    ensures var q := Apply(k, p, CommitPartial(x, made)).value;
      && OnTrack(k, q, x, digest, c) && q == p.(vault := q.vault) && HasNonce(k, q, x)
      && ReservedFor(k, q, x).value.nonce == ReservedFor(k, p, x).value.nonce
      && ReservedFor(k, q, x).value.partial == Some(PartialUsed(k, p, x, made))
  {
    hide Authorized, Reservation, Transcript;
  }

  lemma RecordPartialTracks(k: Crypto, p: Party, x: SigningContext, digest: Bytes, c: Counterpart)
    requires OnTrack(k, p, x, digest, c) && HasNonce(k, p, x) && HasRow(p, x) && RowOf(p, x).remoteNonce.Some?
    requires ReservedFor(k, p, x).value.partial.Some?
    ensures Apply(k, p, RecordPartial(x)).Ok?
    ensures var q := Apply(k, p, RecordPartial(x)).value;
      && OnTrack(k, q, x, digest, c) && ReservedFor(k, q, x) == ReservedFor(k, p, x) && HasRow(q, x) && RowOf(q, x).localPartial.Some?
  {
    hide Authorized, Reservation, TranscriptPreimage, Opened;
    OpenTracks(k, p, x, digest, c);
  }

  lemma SendPartialTracks(k: Crypto, p: Party, x: SigningContext, digest: Bytes, c: Counterpart, m: Bytes)
    requires OnTrack(k, p, x, digest, c) && HasRow(p, x) && RowOf(p, x).localPartial.Some?
    requires FromPeer(k, x, m, NONCE) && BodyOf(m).payload == c.nonce
    ensures Apply(k, p, SendPartial(x, m)) == Ok(p.(authored := p.authored
      + {BodyFor(x, digest, PARTIAL, RowOf(p, x).transcript.value + RowOf(p, x).localPartial.value)}))
    ensures var q := Apply(k, p, SendPartial(x, m)).value; OnTrack(k, q, x, digest, c) && ReservedFor(k, q, x) == ReservedFor(k, p, x)
  {
    hide Authorized, Reservation, Transcript, BodyFor, FromPeer, BodyOf, Framed;
  }

  /** The peer's frames are authentic, and its partial names the transcript of the reserved nonce. */
  predicate PeerDelivers(k: Crypto, p: Party, x: SigningContext, digest: Bytes, c: Counterpart, m: Bytes, n: Bytes) {
    && FromPeer(k, x, m, NONCE) && BodyOf(m).payload == c.nonce && FromPeer(k, x, n, PARTIAL) && HasNonce(k, p, x)
    && BodyOf(n).payload == Transcript(k, digest, ReservedFor(k, p, x).value.nonce.value, c) + c.partial
  }

  lemma BindPartialTracks(k: Crypto, p: Party, x: SigningContext, digest: Bytes, c: Counterpart, m: Bytes, n: Bytes)
    requires OnTrack(k, p, x, digest, c) && HasRow(p, x) && RowOf(p, x).localPartial.Some? && Wide(k.hash)
    requires PeerDelivers(k, p, x, digest, c, m, n)
    ensures Apply(k, p, BindPartial(x, m, n)).Ok?
    ensures var q := Apply(k, p, BindPartial(x, m, n)).value;
      && OnTrack(k, q, x, digest, c) && ReservedFor(k, q, x) == ReservedFor(k, p, x) && HasRow(q, x) && RowOf(q, x).localPartial.Some?
      && RowOf(q, x).remotePartial.Some?
  {
    hide Authorized, Reservation, TranscriptPreimage, Opened, FromPeer, BodyOf, Framed;
    OpenTracks(k, p, x, digest, c);
    var t := Transcript(k, digest, ReservedFor(k, p, x).value.nonce.value, c);
    assert (t + c.partial)[..32] == t && (t + c.partial)[32..] == c.partial;
  }

  lemma CompleteTracks(k: Crypto, p: Party, x: SigningContext, digest: Bytes, c: Counterpart, m: Bytes, n: Bytes)
    requires OnTrack(k, p, x, digest, c) && HasRow(p, x) && RowOf(p, x).localPartial.Some? && Wide(k.hash)
    requires RowOf(p, x).remotePartial.Some? && PeerDelivers(k, p, x, digest, c, m, n)
    ensures Apply(k, p, Complete(x, m, n)).Ok?
    ensures var q := Apply(k, p, Complete(x, m, n)).value; var nonce := ReservedFor(k, p, x).value.nonce.value;
      && OnTrack(k, q, x, digest, c)
      && Completion(x.session, digest, x.authority.role, nonce, c.nonce, Transcript(k, digest, nonce, c),
           x.window.policy, x.window.anchors, BodyOf(m), BodyOf(n)) in q.completed
  {
    hide Authorized, Reservation, TranscriptPreimage, FromPeer, BodyOf, Framed;
    var t := Transcript(k, digest, ReservedFor(k, p, x).value.nonce.value, c);
    assert (t + c.partial)[..32] == t && (t + c.partial)[32..] == c.partial;
  }

  // ===== Whatever was committed before an interruption

  /** Every accepted commit of the round, of whichever attempt, leaves the participant on track. */
  lemma RoundTracks(k: Crypto, p: Party, x: SigningContext, digest: Bytes, c: Counterpart, e: Event)
    requires OnTrack(k, p, x, digest, c) && OfRound(k, x, c, e) && Apply(k, p, e).Ok? && Wide(k.hash)
    ensures OnTrack(k, Apply(k, p, e).value, x, digest, c)
  {
    match e {
      case Open(_) => hide *; OpenTracks(k, p, x, digest, c);
      case Reserve(_) => hide *; ReserveTracks(k, p, x, digest, c);
      case CommitNonce(_, made) => NonceTracks(k, p, x, digest, c, made);
      case CommitPartial(_, made) => PartialTracks(k, p, x, digest, c, made);
      case SendNonce(_) => SendTracks(k, p, x, digest, c, e);
      case SendPartial(_, _) => SendTracks(k, p, x, digest, c, e);
      case Complete(_, _, _) => SendTracks(k, p, x, digest, c, e);
      case _ => RecordTracks(k, p, x, digest, c, e);
    }
  }

  lemma NonceTracks(k: Crypto, p: Party, x: SigningContext, digest: Bytes, c: Counterpart, made: Bytes)
    requires OnTrack(k, p, x, digest, c) && Apply(k, p, CommitNonce(x, made)).Ok? && |made| == 66 && made != c.nonce
    ensures OnTrack(k, Apply(k, p, CommitNonce(x, made)).value, x, digest, c)
  {
    hide Authorized, Reservation, Transcript;
  }

  lemma PartialTracks(k: Crypto, p: Party, x: SigningContext, digest: Bytes, c: Counterpart, made: Bytes)
    requires OnTrack(k, p, x, digest, c) && Apply(k, p, CommitPartial(x, made)).Ok? && |made| == 32
    ensures OnTrack(k, Apply(k, p, CommitPartial(x, made)).value, x, digest, c)
  {
    hide Authorized, Reservation, Transcript;
  }

  lemma SendTracks(k: Crypto, p: Party, x: SigningContext, digest: Bytes, c: Counterpart, e: Event)
    requires OnTrack(k, p, x, digest, c) && e.x == x && Apply(k, p, e).Ok? && (e.SendNonce? || e.SendPartial? || e.Complete?)
    ensures OnTrack(k, Apply(k, p, e).value, x, digest, c)
  {
    hide Authorized, Reservation, TranscriptPreimage, BodyFor, FromPeer, BodyOf, Framed, PeerFramesMatch, VaultBound, VaultPartial;
  }

  lemma RecordTracks(k: Crypto, p: Party, x: SigningContext, digest: Bytes, c: Counterpart, e: Event)
    requires OnTrack(k, p, x, digest, c) && OfRound(k, x, c, e) && Apply(k, p, e).Ok?
    requires e.RecordNonce? || e.BindRemote? || e.RecordPartial? || e.BindPartial?
    ensures OnTrack(k, Apply(k, p, e).value, x, digest, c)
  {
    hide Authorized, Reservation, TranscriptPreimage, Opened, FromPeer, BodyOf, Framed, PeerFramesMatch;
    OpenTracks(k, p, x, digest, c);
  }
}
