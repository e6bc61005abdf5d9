/**
 The claim round's guarantees over every run: what one finished round says
 about the peer, agreement of two finished rounds, and nonces that are used
 for one partial signature only.
 */
module ClaimAgreement {
  import opened Wire
  import opened ActuationScope
  import opened ClaimSession
  import opened ClaimWire
  import opened ClaimStore
  import opened ClaimProtocol

  // ===== Every reachable world is sound

  lemma NewFramesFit(k: Crypto, p: Party, e: Event)
    requires e.Complete? && Apply(k, p, e).Ok?
    ensures Held(k, p, e.x).Ok?
    ensures forall c :: c in Apply(k, p, e).value.completed - p.completed ==>
      && FramesFit(c) && c.role == e.x.authority.role && c.session == e.x.session
      && Framed(e.nonceFrame) && Framed(e.partialFrame)
      && c.nonceFrame == BodyOf(e.nonceFrame) && c.partialFrame == BodyOf(e.partialFrame)
      && FromPeer(k, e.x, e.nonceFrame, NONCE) && FromPeer(k, e.x, e.partialFrame, PARTIAL)
  {
    hide Held, Apply, Authorized, VaultNonce, TranscriptDigest, VerifyPeer, Framed, BodyOf, SessionDigest;
    CompleteShape(k, p, e);
    HeldFacts(k, p, e.x);
    var x := e.x;
    VerifiedBody(k, ScopeOf(x, Authorized(k, x).value), e.nonceFrame, NONCE, x.authority.role, x.session.roster);
    VerifiedBody(k, ScopeOf(x, Authorized(k, x).value), e.partialFrame, PARTIAL, x.authority.role, x.session.roster);
  }

  lemma OnlyCompleteFinishes(k: Crypto, p: Party, e: Event)
    requires Apply(k, p, e).Ok? && !e.Complete?
    ensures Apply(k, p, e).value.completed == p.completed
  {
    hide Authorized, FromPeer, VaultNonce, VaultPartial, VaultBound, TranscriptDigest, PeerFramesMatch, BodyFor,
         ReservationOf;
  }

  lemma StepSound(k: Crypto, hashed: set<Bytes>, w: World, i: Bytes, e: Event, w': World)
    requires Wide(k.hash) && InjectiveOn(k.hash, hashed)
    requires WorldSound(k, hashed, w) && Step(k, hashed, w, i, e, w')
    ensures WorldSound(k, hashed, w')
  {
    hide Apply, PartySound, HashesWithin, WellTyped, FramesFit, FramesGenuine, PeerAuthored;
    ApplySound(k, hashed, w[i], e);
    ApplyExtends(k, w[i], e);
    forall j, c | j in w' && c in w'[j].completed
      ensures FramesFit(c) && PeerAuthored(w', c)
    {
      if j in w && c in w[j].completed {
        AuthoredStays(w, w', i, c);
      } else {
        FinishedAuthored(k, hashed, w, i, e, c);
        AuthoredStays(w, w', i, c);
      }
    }
  }

  lemma AuthoredStays(w: World, w': World, i: Bytes, c: Completion)
    requires PeerAuthored(w, c) && i in w && i in w' && w' == w[i := w'[i]] && Extends(w[i], w'[i])
    ensures PeerAuthored(w', c)
  {
  }

  lemma FinishedAuthored(k: Crypto, hashed: set<Bytes>, w: World, i: Bytes, e: Event, c: Completion)
    requires InjectiveOn(k.hash, hashed) && WorldSound(k, hashed, w)
    requires i in w && FramesGenuine(k, w, e) && Apply(k, w[i], e).Ok?
    requires HashesWithin(k, e, w[i], Apply(k, w[i], e).value, hashed)
    requires c in Apply(k, w[i], e).value.completed && c !in w[i].completed
    ensures FramesFit(c) && PeerAuthored(w, c)
  {
    hide Apply, WorldSound, FramesFit, FromPeer, Framed, BodyOf, Genuine, MessagePreimage, Held, SessionHashed,
         VaultNonce, TranscriptPreimage, Unsigned;
    if !e.Complete? {
      OnlyCompleteFinishes(k, w[i], e);
    }
    NewFramesFit(k, w[i], e);
    if PeerKnown(w, c) {
      GenuineAuthored(k, hashed, w, e.x, e.nonceFrame, NONCE);
      GenuineAuthored(k, hashed, w, e.x, e.partialFrame, PARTIAL);
    }
  }

  lemma StartSound(k: Crypto, hashed: set<Bytes>, w: World)
    requires Start(w)
    ensures WorldSound(k, hashed, w)
  {
    hide RowSound, VaultSound, AuthoredSound, CompletionSound, FramesFit, PeerAuthored;
  }

  lemma {:induction false} RunSound(k: Crypto, hashed: set<Bytes>, ws: seq<World>, steps: seq<(Bytes, Event)>, j: nat)
    requires Wide(k.hash) && InjectiveOn(k.hash, hashed) && Run(k, hashed, ws, steps) && j < |ws|
    ensures WorldSound(k, hashed, ws[j])
  {
    hide Step, WorldSound, Start;
    if j == 0 {
      StartSound(k, hashed, ws[0]);
    } else {
      RunSound(k, hashed, ws, steps, j - 1);
      StepSound(k, hashed, ws[j - 1], steps[j - 1].0, steps[j - 1].1, ws[j]);
    }
  }

  // ===== One finished round

  /** Two rows of one participant for the same session digest are one row. */
  lemma OneRow(k: Crypto, hashed: set<Bytes>, p: Party, e: Bytes, f: Bytes)
    requires Wide(k.hash) && InjectiveOn(k.hash, hashed) && PartySound(k, hashed, p)
    requires e in p.rows && f in p.rows && p.rows[e].session == p.rows[f].session
    ensures e == f
  {
    hide SessionDigest, SessionTyped, SessionHashed, VaultNonce, VaultPartial, IsTranscript, AuthoredSound,
         CompletionSound, VaultSound;
    assert RowSound(k, hashed, p, e) && RowSound(k, hashed, p, f);
    assert InjectiveOn(k.hash, SessionHashed(k, p.sessions[e]) + SessionHashed(k, p.sessions[f]));
    SessionDigestBinds(k, p.sessions[e], p.sessions[f]);
  }

  /** The two nonces behind a transcript are those of any other transcript with the same digest. */
  lemma OnePair(k: Crypto, hashed: set<Bytes>, session: Bytes, a: Bytes, b: Bytes, c: Bytes, d: Bytes, t: Bytes)
    requires InjectiveOn(k.hash, hashed) && |session| == 32
    requires IsTranscript(k, hashed, session, a, b, t) && IsTranscript(k, hashed, session, c, d, t)
    requires a == d
    ensures b == c
  {
    hide TranscriptPreimage;
    assert TranscriptPreimage(session, a, b) == TranscriptPreimage(session, c, d);
    TranscriptInjective(session, a, b, session, c, d);
  }

  /** The peer of a finished round holds the same two nonces, seen from its side, and the same transcript. */
  predicate Mirrors(r: Row, c: Completion) {
    && r.session == c.digest && r.localNonce == Some(c.remote) && r.remoteNonce == Some(c.local)
    && r.transcript == Some(c.transcript)
    && |c.partialFrame.payload| == 64 && r.localPartial == Some(c.partialFrame.payload[32..])
  }

  lemma PeerMirrors(k: Crypto, hashed: set<Bytes>, w: World, i: Bytes, c: Completion) returns (e: Bytes)
    requires Wide(k.hash) && InjectiveOn(k.hash, hashed) && WorldSound(k, hashed, w)
    requires i in w && c in w[i].completed && PeerKnown(w, c)
    ensures FramesFit(c)
    ensures var peer := w[Peer(c.role, c.session.roster).id]; e in peer.rows && Mirrors(peer.rows[e], c)
  {
    hide SessionDigest, SessionTyped, SessionHashed, VaultNonce, VaultPartial, IsTranscript, Unsigned, VaultSound,
         PartySound, AuthoredSound, CompletionSound, RowSound, BodyFits;
    var peer := w[Peer(c.role, c.session.roster).id];
    assert FramesFit(c) && PeerAuthored(w, c);
    CompletionIsSound(k, hashed, w, i, c);
    e := BackingRow(k, hashed, peer, c.nonceFrame);
    var f := BackingRow(k, hashed, peer, c.partialFrame);
    OneRow(k, hashed, peer, e, f);
    PairMirrored(k, hashed, w[i], peer, e, c);
  }

  lemma BackingRow(k: Crypto, hashed: set<Bytes>, p: Party, b: Body) returns (e: Bytes)
    requires PartySound(k, hashed, p) && b in p.authored
    ensures e in p.rows && Backs(p.rows[e], b)
  {
    hide RowSound, VaultSound, CompletionSound, Backs, BodyFits;
    assert AuthoredSound(k, hashed, p, b);
    e :| e in p.rows && Backs(p.rows[e], b);
  }

  /** A row with the round's transcript and the round's remote nonce as its own has the other nonce as its remote one. */
  lemma PairMirrored(k: Crypto, hashed: set<Bytes>, p: Party, peer: Party, e: Bytes, c: Completion)
    requires Wide(k.hash) && InjectiveOn(k.hash, hashed) && PartySound(k, hashed, peer) && e in peer.rows
    requires CompletionSound(k, hashed, p, c)
    requires var r := peer.rows[e];
      r.session == c.digest && r.localNonce == Some(c.remote) && r.transcript == Some(c.transcript)
    ensures peer.rows[e].remoteNonce == Some(c.local)
  {
    hide SessionDigest, SessionTyped, SessionHashed, VaultNonce, VaultPartial, IsTranscript, AuthoredSound, VaultSound;
    assert RowSound(k, hashed, peer, e);
    var r := peer.rows[e];
    SessionDigestWide(k, c.session);
    OnePair(k, hashed, c.digest, r.localNonce.value, r.remoteNonce.value, c.local, c.remote, c.transcript);
  }

  /**
   In every run, a participant that finishes a round with an honest peer rests on a nonce and a partial
   frame which that peer itself signed for this session, policy and anchors; and the peer's own durable
   row already holds the same pair of nonces, the same transcript and that very partial signature.
   */
  lemma FinishedMeansPeerCommitted(k: Crypto, hashed: set<Bytes>, ws: seq<World>, steps: seq<(Bytes, Event)>, j: nat,
                                   i: Bytes, c: Completion)
    requires Wide(k.hash) && InjectiveOn(k.hash, hashed) && Run(k, hashed, ws, steps) && j < |ws|
    requires i in ws[j] && c in ws[j][i].completed && PeerKnown(ws[j], c)
    ensures FramesFit(c)
    ensures var peer := ws[j][Peer(c.role, c.session.roster).id];
      && c.nonceFrame in peer.authored && c.partialFrame in peer.authored
      && exists e :: e in peer.rows && Mirrors(peer.rows[e], c)
  {
    RunSound(k, hashed, ws, steps, j);
    hide Run;
    assert PeerAuthored(ws[j], c);
    var e := PeerMirrors(k, hashed, ws[j], i, c);
  }

  // ===== Two finished rounds

  lemma CompletionIsSound(k: Crypto, hashed: set<Bytes>, w: World, i: Bytes, c: Completion)
    requires WorldSound(k, hashed, w) && i in w && c in w[i].completed
    ensures w[i].id == i && CompletionSound(k, hashed, w[i], c)
  {
    hide RowSound, VaultSound, AuthoredSound, CompletionSound;
  }

  /** Distinct participants that finish the same session are each other's peers. */
  lemma FinishersArePeers(k: Crypto, hashed: set<Bytes>, w: World, i: Bytes, c: Completion, j: Bytes, d: Completion)
    requires Wide(k.hash) && InjectiveOn(k.hash, hashed) && WorldSound(k, hashed, w)
    requires i in w && j in w && i != j && c in w[i].completed && d in w[j].completed && c.digest == d.digest
    ensures SameSession(c.session, d.session) && Peer(c.role, c.session.roster).id == j && PeerKnown(w, c)
  {
    hide SessionDigest, SessionTyped, SessionHashed, VaultNonce, IsTranscript, WorldSound;
    CompletionIsSound(k, hashed, w, i, c);
    CompletionIsSound(k, hashed, w, j, d);
    assert InjectiveOn(k.hash, SessionHashed(k, c.session) + SessionHashed(k, d.session));
    SessionDigestBinds(k, c.session, d.session);
  }

  /**
   Agreement: in every run with loss, duplication, reordering, restarts and takeovers, two participants
   that both finish a session used the same pair of public nonces and the same transcript digest.
   */
  lemma Agreement(k: Crypto, hashed: set<Bytes>, ws: seq<World>, steps: seq<(Bytes, Event)>, n: nat,
                  i: Bytes, c: Completion, j: Bytes, d: Completion)
    requires Wide(k.hash) && InjectiveOn(k.hash, hashed) && Run(k, hashed, ws, steps) && n < |ws|
    requires i in ws[n] && j in ws[n] && i != j
    requires c in ws[n][i].completed && d in ws[n][j].completed && c.digest == d.digest
    ensures SameSession(c.session, d.session)
    ensures c.local == d.remote && c.remote == d.local && c.transcript == d.transcript
    ensures c.nonceFrame in ws[n][j].authored && c.partialFrame in ws[n][j].authored
    ensures d.nonceFrame in ws[n][i].authored && d.partialFrame in ws[n][i].authored
    ensures FramesFit(c) && FramesFit(d)
  {
    var w := ws[n];
    RunSound(k, hashed, ws, steps, n);
    hide Run;
    FinishersArePeers(k, hashed, w, i, c, j, d);
    FinishersArePeers(k, hashed, w, j, d, i, c);
    assert PeerAuthored(w, c) && PeerAuthored(w, d);
    var e := PeerMirrors(k, hashed, w, i, c);
    var f := PeerMirrors(k, hashed, w, j, d);
    SidesMeet(k, hashed, w[j], e, c, d);
  }

  /** The row that mirrors a peer's round is the row its own round was finished on. */
  lemma SidesMeet(k: Crypto, hashed: set<Bytes>, p: Party, e: Bytes, c: Completion, d: Completion)
    requires Wide(k.hash) && InjectiveOn(k.hash, hashed) && PartySound(k, hashed, p)
    requires e in p.rows && Mirrors(p.rows[e], c) && d in p.completed && c.digest == d.digest
    ensures c.local == d.remote && c.remote == d.local && c.transcript == d.transcript
  {
    assert CompletionSound(k, hashed, p, d);
    OneRow(k, hashed, p, e, d.session.effectId);
    assert RowSound(k, hashed, p, e);
    hide SessionDigest, SessionTyped, SessionHashed, VaultNonce, VaultPartial, IsTranscript, PartySound;
    OneReservation(k, hashed, p, d.session);
  }

  // ===== One nonce, one partial

  /** In every run, all nonce frames a participant signs for one reservation carry one nonce, and all partial frames one partial. */
  lemma NonceUsedOnce(k: Crypto, hashed: set<Bytes>, ws: seq<World>, steps: seq<(Bytes, Event)>, n: nat, i: Bytes,
                      a: Body, e: Bytes, b: Body, f: Bytes)
    requires Wide(k.hash) && InjectiveOn(k.hash, hashed) && Run(k, hashed, ws, steps) && n < |ws| && i in ws[n]
    requires var p := ws[n][i];
      && a in p.authored && b in p.authored && a.kind == b.kind
      && e in p.sessions && f in p.sessions && e in p.rows && f in p.rows
      && a.session == p.rows[e].session && b.session == p.rows[f].session
      && ReservationOf(k, p, p.sessions[e]) == ReservationOf(k, p, p.sessions[f])
    ensures a.kind == NONCE ==> a.payload == b.payload
    ensures a.kind == PARTIAL ==> |a.payload| == 64 == |b.payload| && a.payload[32..] == b.payload[32..]
  {
    hide Run, PartySound, FramesFit, PeerAuthored, Reservation;
    var p := ws[n][i];
    RunSound(k, hashed, ws, steps, n);
    AuthoredFromVault(k, hashed, p, a, e);
    AuthoredFromVault(k, hashed, p, b, f);
  }

  /** What a participant signed for the session of row `e` is what its vault holds for that session. */
  lemma AuthoredFromVault(k: Crypto, hashed: set<Bytes>, p: Party, b: Body, e: Bytes)
    requires Wide(k.hash) && InjectiveOn(k.hash, hashed) && PartySound(k, hashed, p)
    requires b in p.authored && e in p.rows && e in p.sessions && b.session == p.rows[e].session
    ensures b.kind == NONCE ==> VaultNonce(k, p, p.sessions[e]) == Some(b.payload)
    ensures b.kind == PARTIAL ==> |b.payload| == 64 && VaultPartial(k, p, p.sessions[e]) == Some(b.payload[32..])
  {
    hide CompletionSound, VaultSound, SessionDigest, SessionTyped, SessionHashed, VaultNonce, VaultPartial, IsTranscript,
         Unsigned, BodyFits;
    assert AuthoredSound(k, hashed, p, b);
    var f :| f in p.rows && Backs(p.rows[f], b);
    OneRow(k, hashed, p, e, f);
    assert RowSound(k, hashed, p, e);
  }

  /** Signed frames stay reproducible: whatever a run signs later for the session says the same. */
  lemma {:induction false} RunExtends(k: Crypto, hashed: set<Bytes>, ws: seq<World>, steps: seq<(Bytes, Event)>,
                                      m: nat, n: nat, i: Bytes)
    requires Run(k, hashed, ws, steps) && m <= n < |ws| && i in ws[m]
    ensures i in ws[n] && Extends(ws[m][i], ws[n][i])
  {
    hide Extends, Step;
    if m < n {
      RunExtends(k, hashed, ws, steps, m, n - 1, i);
      StepExtends(k, hashed, ws[n - 1], steps[n - 1].0, steps[n - 1].1, ws[n], i);
      ExtendsTransitive(ws[m][i], ws[n - 1][i], ws[n][i]);
    } else {
      ExtendsItself(ws[m][i]);
    }
  }

  lemma StepExtends(k: Crypto, hashed: set<Bytes>, w: World, j: Bytes, e: Event, w': World, i: Bytes)
    requires Step(k, hashed, w, j, e, w') && i in w
    ensures i in w' && Extends(w[i], w'[i])
  {
    hide Apply, Extends, WellTyped, FramesGenuine, HashesWithin;
    if i == j {
      ApplyExtends(k, w[i], e);
    } else {
      ExtendsItself(w[i]);
    }
  }
}
