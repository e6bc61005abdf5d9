/**
 Fencing and anchoring of a participant's durable claim state over every run
 (crates/btc-actuator/src/store.rs, crates/adapters/btc-vault/src/vault.rs).
 */
module ClaimFence {
  import opened Wire
  import opened ActuationScope
  import opened ClaimSession
  import opened ClaimWire
  import opened ClaimStore
  import opened ClaimProtocol
  import opened ClaimAgreement

  /** Commits that write a row under the fence of their scope. */
  predicate WritesRow(e: Event) {
    e.Open? || e.RecordNonce? || e.BindRemote? || e.RecordPartial? || e.BindPartial?
  }

  lemma OpenedFence(k: Crypto, p: Party, x: SigningContext)
    requires Opened(k, p, x).Ok?
    ensures var q, i := Opened(k, p, x).value, x.session.effectId;
      && i in q.rows && q.rows[i].fence == x.scope.fenceEpoch && (i in p.rows ==> q == p)
      && (i !in p.rows ==> q.rows == p.rows[i := q.rows[i]])
  {
    hide Authorized;
  }

  /**
   A row is only written under its own fence: a scope that is behind it, or ahead of it, is refused, and
   only a takeover moves it, upwards.
   */
  lemma FenceRule(k: Crypto, p: Party, e: Event)
    requires Apply(k, p, e).Ok?
    ensures var q, i := Apply(k, p, e).value, e.x.session.effectId;
      && (WritesRow(e) ==> i in q.rows && q.rows[i].fence == e.x.scope.fenceEpoch)
      && (WritesRow(e) && i in p.rows ==> p.rows[i].fence == e.x.scope.fenceEpoch)
      && (e.TakeOver? ==> i in p.rows && i in q.rows && p.rows[i].fence < q.rows[i].fence == e.x.scope.fenceEpoch)
      && (forall j :: j in p.rows ==> j in q.rows && (q.rows[j].fence == p.rows[j].fence || (e.TakeOver? && j == i)))
  {
    hide Authorized, Opened, FromPeer, VaultBound, VaultNonce, VaultPartial, TranscriptDigest, BodyFor, BodyOf, Framed,
         PeerFramesMatch, ReservationOf;
    if WritesRow(e) {
      OpenedFence(k, p, e.x);
    }
  }

  /** What a stale scope meets. */
  lemma StaleRefused(k: Crypto, p: Party, x: SigningContext)
    requires x.session.effectId in p.rows && p.rows[x.session.effectId].fence > x.scope.fenceEpoch
    ensures Apply(k, p, Open(x)).Err? && Apply(k, p, RecordNonce(x)).Err? && Apply(k, p, RecordPartial(x)).Err?
    ensures Apply(k, p, TakeOver(x)).Err?
  {
    hide Authorized, VaultBound, VaultNonce, VaultPartial, TranscriptDigest;
  }

  /** In every run the fence of a row never goes back. */
  lemma {:induction false} FencesRise(k: Crypto, hashed: set<Bytes>, ws: seq<World>, steps: seq<(Bytes, Event)>, m: nat, n: nat,
                                      i: Bytes, e: Bytes)
    requires Run(k, hashed, ws, steps) && m <= n < |ws| && i in ws[m] && e in ws[m][i].rows
    ensures i in ws[n] && e in ws[n][i].rows && ws[m][i].rows[e].fence <= ws[n][i].rows[e].fence
    decreases n
  {
    hide Apply, WellTyped, FramesGenuine, HashesWithin, WritesRow;
    if m < n {
      FencesRise(k, hashed, ws, steps, m, n - 1, i, e);
      var j, step := steps[n - 1].0, steps[n - 1].1;
      assert Step(k, hashed, ws[n - 1], j, step, ws[n]);
      FenceRule(k, ws[n - 1][j], step);
    }
  }

  /** The reservation a round was finished with is bound to the round's anchors. */
  predicate Anchored(k: Crypto, p: Party, c: Completion) {
    var r := Reservation(k, c.session, p.id);
    r.Some? && r.value in p.vault && p.vault[r.value].anchors == c.anchors && p.vault[r.value].nonce == Some(c.local)
  }

  lemma NewAnchored(k: Crypto, p: Party, e: Event, c: Completion)
    requires Apply(k, p, e).Ok? && c in Apply(k, p, e).value.completed && c !in p.completed
    ensures Anchored(k, Apply(k, p, e).value, c)
  {
    hide Authorized, Reservation, FromPeer, TranscriptDigest, Framed, BodyOf, PeerFramesMatch, VaultPartial;
    if !e.Complete? {
      OnlyCompleteFinishes(k, p, e);
    }
  }

  lemma AnchoredStays(k: Crypto, p: Party, q: Party, c: Completion)
    requires Anchored(k, p, c) && Extends(p, q)
    ensures Anchored(k, q, c)
  {
    hide Reservation;
  }

  /** In every run each finished round used the nonce of a reservation made under the round's own anchors. */
  lemma {:induction false} FinishedAnchored(k: Crypto, hashed: set<Bytes>, ws: seq<World>, steps: seq<(Bytes, Event)>, n: nat,
                                            i: Bytes, c: Completion)
    requires Run(k, hashed, ws, steps) && n < |ws| && i in ws[n] && c in ws[n][i].completed
    ensures Anchored(k, ws[n][i], c)
  {
    hide Apply, WellTyped, FramesGenuine, HashesWithin, Anchored, Extends;
    if n > 0 {
      var j, e := steps[n - 1].0, steps[n - 1].1;
      assert Step(k, hashed, ws[n - 1], j, e, ws[n]);
      if i in ws[n - 1] && c in ws[n - 1][i].completed {
        FinishedAnchored(k, hashed, ws, steps, n - 1, i, c);
        if i == j {
          ApplyExtends(k, ws[n - 1][i], e);
          AnchoredStays(k, ws[n - 1][i], ws[n][i], c);
        }
      } else {
        NewAnchored(k, ws[n - 1][i], e, c);
      }
    }
  }
}
