/**
 What a finished claim round pays, and what authorized it, over every run
 (crates/btc-actuator/src/signer.rs, crates/btc-actuator/src/store.rs).
 */
module ClaimPayment {
  import opened Wire
  import opened ActuationScope
  import opened ClaimSession
  import opened ClaimWire
  import opened ClaimStore
  import opened ClaimProtocol
  import opened ClaimAgreement
  import opened ClaimLayout

  /** What a context must bring before anything is committed under it: scope, window and authority for this session. */
  lemma AuthorizedMeans(k: Crypto, x: SigningContext)
    requires Authorized(k, x).Some?
    ensures BuildContext(k, x.session).Some? && SessionDigest(k, x.session) == Authorized(k, x)
    ensures var o, s := x.scope, x.session;
      && o.action == Claim && o.routeId == s.routeId && o.effectId == s.effectId && o.fenceEpoch == s.fenceEpoch
      && o.amount == s.amount && o.outpoint == Some(Outpoint(s.fundingTxid, s.fundingVout)) && o.network == s.network
      && o.terms == (if s.routeTerms.Some? then s.routeTerms.value else s.terms)
      && o.registry == s.registry && o.profile == s.profile && o.deployment == s.deployment
      && o.expectedTxid == k.txid(BuildContext(k, s).value.template) && o.intent == Authorized(k, x).value
      && o.policy.initialFee == s.fee && o.policy.changeVout.None?
    ensures var w, s := x.window, x.session;
      w.terms == s.terms && w.network == s.network && w.fundingTxid == s.fundingTxid && w.delay == Some(s.refundDelay)
    ensures var a, s := x.authority, x.session;
      && a.routeId == s.routeId && a.terms == s.terms && a.registry == s.registry && a.profile == s.profile
      && a.deployment == s.deployment
      && Participant(a.participantId, a.role, a.key) == (if a.role == Maker then s.roster.first else s.roster.second)
  {
    hide SessionPreimage, RosterPreimage, SessionSane;
  }

  lemma NewCompletionAuthorized(k: Crypto, p: Party, e: Event, c: Completion)
    requires Apply(k, p, e).Ok? && c in Apply(k, p, e).value.completed && c !in p.completed
    ensures e.Complete? && c.session == e.x.session && Authorized(k, e.x) == Some(c.digest)
    ensures c.policy == e.x.window.policy && c.anchors == e.x.window.anchors && c.role == e.x.authority.role
    ensures e.x.authority.participantId == p.id
  {
    hide Apply, Held, Authorized, VaultNonce, TranscriptDigest, PeerFramesMatch, Framed, BodyOf, SessionDigest;
    if !e.Complete? {
      OnlyCompleteFinishes(k, p, e);
    }
    CompleteShape(k, p, e);
    HeldFacts(k, p, e.x);
  }

  /** The context under which a finished round was finished. */
  lemma {:induction false} FinishedUnder(k: Crypto, hashed: set<Bytes>, ws: seq<World>, steps: seq<(Bytes, Event)>, n: nat,
                                         i: Bytes, c: Completion) returns (x: SigningContext)
    requires Run(k, hashed, ws, steps) && n < |ws| && i in ws[n] && c in ws[n][i].completed
    ensures exists j :: 0 <= j < n && steps[j].0 == i && steps[j].1.Complete? && steps[j].1.x == x
    ensures c.session == x.session && Authorized(k, x) == Some(c.digest) && c.role == x.authority.role
    ensures c.policy == x.window.policy && c.anchors == x.window.anchors
  {
    hide Apply, Authorized, WellTyped, FramesGenuine, HashesWithin;
    if n > 0 {
      var j, e := steps[n - 1].0, steps[n - 1].1;
      assert Step(k, hashed, ws[n - 1], j, e, ws[n]);
      if i in ws[n - 1] && c in ws[n - 1][i].completed {
        x := FinishedUnder(k, hashed, ws, steps, n - 1, i, c);
      } else {
        NewCompletionAuthorized(k, ws[n - 1][i], e, c);
        x := e.x;
        assert steps[n - 1].0 == i;
      }
    }
  }

  /**
   In every run each finished round was finished under a context whose scope allows exactly this claim: the
   session's amount and outpoint, the identity of its frozen transaction, its fee and no change.
   */
  lemma FinishedAuthorized(k: Crypto, hashed: set<Bytes>, ws: seq<World>, steps: seq<(Bytes, Event)>, n: nat,
                           i: Bytes, c: Completion) returns (x: SigningContext)
    requires Run(k, hashed, ws, steps) && n < |ws| && i in ws[n] && c in ws[n][i].completed
    ensures BuildContext(k, c.session).Some? && c.session == x.session && c.policy == x.window.policy && c.anchors == x.window.anchors
    ensures x.scope.action == Claim && x.scope.routeId == c.session.routeId && x.scope.effectId == c.session.effectId
    ensures x.scope.amount == c.session.amount && x.scope.intent == c.digest
    ensures x.scope.outpoint == Some(Outpoint(c.session.fundingTxid, c.session.fundingVout))
    ensures x.scope.expectedTxid == k.txid(BuildContext(k, c.session).value.template)
    ensures x.scope.policy.initialFee == c.session.fee && x.scope.policy.changeVout.None?
    ensures x.window.delay == Some(c.session.refundDelay) && x.window.fundingTxid == c.session.fundingTxid
  {
    hide Run, Authorized, BuildContext, SessionDigest;
    x := FinishedUnder(k, hashed, ws, steps, n, i, c);
    AuthorizedMeans(k, x);
  }

  /** In every run each finished round is about a claim that pays the funded amount, less the fee, to the destination. */
  lemma FinishedPays(k: Crypto, hashed: set<Bytes>, ws: seq<World>, steps: seq<(Bytes, Event)>, n: nat, i: Bytes, c: Completion)
    requires Run(k, hashed, ws, steps) && n < |ws| && i in ws[n] && c in ws[n][i].completed
    ensures BuildContext(k, c.session).Some?
    ensures var t, s := BuildContext(k, c.session).value.template, c.session;
      && t.txid == s.fundingTxid && t.vout == s.fundingVout && t.prevScript == s.contractScript && t.prevAmount == s.amount
      && t.amount + s.fee == s.amount && 0 < t.amount && t.script == s.destinationScript
      && k.templateHash(t) == Some(s.expectedTemplate)
  {
    hide Run, Authorized, BuildContext, SessionDigest;
    var x := FinishedUnder(k, hashed, ws, steps, n, i, c);
    AuthorizedMeans(k, x);
    ClaimPays(k, c.session);
  }
}
