/**
 The signing operations and the driver as they run: each is a sequence of
 durable commits that may stop anywhere, and a retry starts over from the
 first phase (crates/btc-actuator/src/participant_wire.rs and claim_driver.rs).
 */
module ClaimActuator {
  import opened Wire
  import opened ActuationScope
  import opened ClaimSession
  import opened ClaimWire
  import opened ClaimStore

  /** The state a sequence of commits leads to, when every one of them is accepted. */
  function Replay(k: Crypto, p: Party, events: seq<Event>): Committed {
    if events == [] then Ok(p)
    else
      var q :- Replay(k, p, events[..|events| - 1]);
      Apply(k, q, events[|events| - 1])
  }

  /** A crash after any commit leaves a state from which the remaining commits are each still one step. */
  lemma {:induction false} CrashAnywhere(k: Crypto, p: Party, events: seq<Event>, n: nat)
    requires Replay(k, p, events).Ok? && n <= |events|
    ensures Replay(k, p, events[..n]).Ok?
    ensures n < |events| ==> Replay(k, p, events[..n + 1]) == Apply(k, Replay(k, p, events[..n]).value, events[n])
    decreases |events|
  {
    hide Apply;
    if n == |events| {
      assert events[..n] == events;
    } else {
      var rest := events[..|events| - 1];
      CrashAnywhere(k, p, rest, n);
      assert rest[..n] == events[..n];
      if n < |rest| {
        assert rest[..n + 1] == events[..n + 1];
      } else {
        assert events[..n + 1] == events;
      }
    }
  }

  /** One sequence of commits after another. */
  lemma {:induction false} ReplayJoins(k: Crypto, p: Party, es: seq<Event>, fs: seq<Event>)
    ensures Replay(k, p, es + fs) == match Replay(k, p, es) case Ok(q) => Replay(k, q, fs) case Err(e) => Err(e)
  {
    hide Apply;
    if fs == [] {
      assert es + fs == es;
    } else {
      var all := es + fs;
      assert all[..|all| - 1] == es + fs[..|fs| - 1] && all[|all| - 1] == fs[|fs| - 1];
      ReplayJoins(k, p, es, fs[..|fs| - 1]);
    }
  }

  lemma ReplayOne(k: Crypto, p: Party, e: Event)
    ensures Replay(k, p, [e]) == Apply(k, p, e)
  {
    hide Apply;
    assert [e][..0] == [];
  }

  /** Entropy: the nonce and partial signature a fresh computation would yield. */
  datatype Randomness = Randomness(nonce: Bytes, partial: Bytes)

  // ===== The commits of each operation

  predicate LacksNonce(p: Party, x: SigningContext) {
    x.session.effectId in p.rows ==> RowOf(p, x).localNonce.None?
  }

  predicate LacksPartial(p: Party, x: SigningContext) {
    x.session.effectId in p.rows ==> RowOf(p, x).localPartial.None?
  }

  function NonceCommits(x: SigningContext, random: Randomness): seq<Event> {
    [Reserve(x), CommitNonce(x, random.nonce), RecordNonce(x)]
  }

  function PartialCommits(x: SigningContext, random: Randomness): seq<Event> {
    [Reserve(x), CommitNonce(x, random.nonce), CommitPartial(x, random.partial), RecordPartial(x)]
  }

  function ExposeEvents(p: Party, x: SigningContext, random: Randomness): seq<Event> {
    [Open(x)] + ((if LacksNonce(p, x) then NonceCommits(x, random) else []) + [SendNonce(x)])
  }

  function AnswerEvents(p: Party, x: SigningContext, m: Bytes, random: Randomness): seq<Event> {
    [BindRemote(x, m)] + ((if LacksPartial(p, x) then PartialCommits(x, random) else []) + [SendPartial(x, m)])
  }

  function FinishEvents(x: SigningContext, m: Bytes, n: Bytes): seq<Event> {
    [BindPartial(x, m, n), Complete(x, m, n)]
  }

  // ===== The operations

  class Actuator {
    const k: Crypto
    ghost const initial: Party
    ghost var log: seq<Event>
    var party: Party

    /** The durable state is exactly what the logged commits lead to. */
    ghost predicate Valid()
      reads this
    {
      Replay(k, initial, log) == Ok(party)
    }

    constructor (k: Crypto, party: Party)
      ensures Valid() && this.k == k && this.party == party && initial == party && log == []
    {
      this.k := k;
      this.party := party;
      initial := party;
      log := [];
    }

    method Commit(e: Event) returns (r: Result<(), ClaimError>)
      requires Valid()
      modifies this
      ensures Valid()
      ensures match Apply(k, old(party), e)
        case Ok(q) => r == Ok(()) && party == q && log == old(log) + [e]
        case Err(err) => r == Err(err) && party == old(party) && log == old(log)
    {
      hide Apply;
      var q :- Apply(k, party, e);
      assert (log + [e])[..|log|] == log;
      party, log := q, log + [e];
      r := Ok(());
    }

    /** Commits one after the other, up to the first that is refused. */
    method CommitAll(es: seq<Event>) returns (r: Result<(), ClaimError>)
      requires Valid()
      modifies this
      ensures Valid() && old(log) <= log
      ensures match Replay(k, old(party), es)
        case Ok(q) => r == Ok(()) && party == q && log == old(log) + es
        case Err(e) => r == Err(e)
    {
      hide Apply;
      for i := 0 to |es|
        invariant Valid() && log == old(log) + es[..i] && Replay(k, old(party), es[..i]) == Ok(party)
      {
        ReplayJoins(k, old(party), es[..i + 1], es[i + 1..]);
        assert es[..i + 1] + es[i + 1..] == es && es[..i + 1][..i] == es[..i];
        var _ :- Commit(es[i]);
      }
      assert es[..|es|] == es;
      r := Ok(());
    }

    /**
     Persists or replays the local nonce, then signs and releases its frame: these commits, up to the first
     that is refused.
     */
    method ExposeClaimMessage(x: SigningContext, random: Randomness, sign: Bytes -> Bytes)
      returns (r: Result<Bytes, ClaimError>)
      requires Valid()
      modifies this
      ensures Valid() && old(log) <= log
      ensures var done := Replay(k, old(party), ExposeEvents(old(party), x, random));
        && (done.Err? ==> r == Err(done.error))
        && (done.Ok? ==> party == done.value && log == old(log) + ExposeEvents(old(party), x, random))
        && (r.Ok? <==> done.Ok? && NonceSendable(done.value, x, sign))
      ensures r.Ok? ==>
        && x.session.effectId in party.rows && RowOf(party, x).localNonce.Some?
        && var b := BodyFor(x, RowOf(party, x).session, NONCE, RowOf(party, x).localNonce.value);
        && b in party.authored && r.value == FrameBytes(b, sign(Unsigned(b))) && Framed(r.value)
      ensures r.Ok? && !LacksNonce(old(party), x) ==>
        RowOf(party, x).localNonce == RowOf(old(party), x).localNonce && party.vault == old(party).vault
    {
      hide Apply, FrameBytes, Framed, Authorized, BodyFor, Unsigned, Replay, NonceCommits;
      ghost var middle := if LacksNonce(party, x) then NonceCommits(x, random) else [];
      SplitReplay(k, party, Open(x), middle, SendNonce(x));
      var _ :- Commit(Open(x));
      OpenedRow(k, old(party), x);
      if RowOf(party, x).localNonce.None? {
        var _ :- CommitAll(NonceCommits(x, random));
      } else {
        ReplayNone(k, party);
      }
      ghost var before := party;
      var _ :- Commit(SendNonce(x));
      SendNonceFacts(k, before, x);
      r := SignFrame(BodyFor(x, RowOf(party, x).session, NONCE, RowOf(party, x).localNonce.value), sign);
    }

    /** Signs and releases the frame of the journalled partial. */
    method ReleasePartial(x: SigningContext, peerNonce: Bytes, sign: Bytes -> Bytes) returns (r: Result<Bytes, ClaimError>)
      requires Valid() && Framed(peerNonce)
      modifies this
      ensures Valid()
      ensures var done := Apply(k, old(party), SendPartial(x, peerNonce));
        && (done.Err? ==> r == Err(done.error) && party == old(party) && log == old(log))
        && (done.Ok? ==> party == done.value && log == old(log) + [SendPartial(x, peerNonce)])
        && (r.Ok? <==> done.Ok? && PartialSendable(done.value, x, sign))
      ensures r.Ok? ==>
        && x.session.effectId in party.rows
        && var row := RowOf(party, x);
        && row.remoteNonce == Some(BodyOf(peerNonce).payload) && row.transcript.Some? && row.localPartial.Some?
        && var b := BodyFor(x, row.session, PARTIAL, row.transcript.value + row.localPartial.value);
        && b in party.authored && r.value == FrameBytes(b, sign(Unsigned(b))) && Framed(r.value)
    {
      hide Apply, FrameBytes, Framed, Replay, BodyFor, Unsigned, BodyOf;
      ghost var before := party;
      var _ :- Commit(SendPartial(x, peerNonce));
      SendPartialFacts(k, before, x, peerNonce);
      var row := RowOf(party, x);
      r := SignFrame(BodyFor(x, row.session, PARTIAL, row.transcript.value + row.localPartial.value), sign);
    }

    /** Authenticates the peer's nonce, persists it, persists or replays the local partial, and releases its frame. */
    method ProduceClaimMessage(x: SigningContext, peerNonce: Bytes, random: Randomness, sign: Bytes -> Bytes)
      returns (r: Result<Bytes, ClaimError>)
      requires Valid() && Framed(peerNonce)
      modifies this
      ensures Valid() && old(log) <= log
      ensures !FromPeer(k, x, peerNonce, NONCE) ==> r.Err? && party == old(party)
      ensures var done := Replay(k, old(party), AnswerEvents(old(party), x, peerNonce, random));
        && (done.Err? ==> r == Err(done.error))
        && (done.Ok? ==> party == done.value && log == old(log) + AnswerEvents(old(party), x, peerNonce, random))
        && (r.Ok? <==> done.Ok? && PartialSendable(done.value, x, sign))
      ensures r.Ok? ==>
        && x.session.effectId in party.rows
        && var row := RowOf(party, x);
        && row.remoteNonce == Some(BodyOf(peerNonce).payload) && row.transcript.Some? && row.localPartial.Some?
        && var b := BodyFor(x, row.session, PARTIAL, row.transcript.value + row.localPartial.value);
        && b in party.authored && r.value == FrameBytes(b, sign(Unsigned(b))) && Framed(r.value)
    {
      hide Apply, FrameBytes, Framed, FromPeer, Replay, BodyFor, Unsigned, BodyOf, PartialCommits, PartialSendable;
      ghost var middle := if LacksPartial(party, x) then PartialCommits(x, random) else [];
      SplitReplay(k, party, BindRemote(x, peerNonce), middle, SendPartial(x, peerNonce));
      UnauthenticRefused(k, party, x, peerNonce);
      var _ :- Commit(BindRemote(x, peerNonce));
      BoundRow(k, old(party), x, peerNonce);
      if RowOf(party, x).localPartial.None? {
        var _ :- CommitAll(PartialCommits(x, random));
      } else {
        ReplayNone(k, party);
      }
      r := ReleasePartial(x, peerNonce, sign);
    }

    /** Authenticates both peer frames, persists the peer's partial, and finishes if it verifies. */
    method AggregateClaimMessages(x: SigningContext, peerNonce: Bytes, peerPartial: Bytes, verifies: bool)
      returns (r: Result<Completion, ClaimError>)
      requires Valid() && Framed(peerNonce) && Framed(peerPartial)
      modifies this
      ensures Valid() && old(log) <= log
      ensures r.Ok? <==> verifies && Replay(k, old(party), FinishEvents(x, peerNonce, peerPartial)).Ok?
      ensures r.Ok? ==>
        && Replay(k, old(party), FinishEvents(x, peerNonce, peerPartial)) == Ok(party)
        && log == old(log) + FinishEvents(x, peerNonce, peerPartial)
        && r.value in party.completed && r.value.session == x.session
        && r.value.policy == x.window.policy && r.value.anchors == x.window.anchors
        && r.value.nonceFrame == BodyOf(peerNonce) && r.value.partialFrame == BodyOf(peerPartial)
    {
      hide Apply, Framed, Replay;
      SplitReplay(k, party, BindPartial(x, peerNonce, peerPartial), [], Complete(x, peerNonce, peerPartial));
      assert [BindPartial(x, peerNonce, peerPartial)] + ([] + [Complete(x, peerNonce, peerPartial)])
          == FinishEvents(x, peerNonce, peerPartial);
      var _ :- Commit(BindPartial(x, peerNonce, peerPartial));
      ReplayNone(k, party);
      if !verifies {
        return Err(ClaimCryptography);
      }
      ghost var before := party;
      var _ :- Commit(Complete(x, peerNonce, peerPartial));
      CompleteFacts(k, before, x, peerNonce, peerPartial);
      var row := RowOf(party, x);
      r := Ok(Completion(x.session, row.session, x.authority.role, VaultNonce(k, party, x.session).value,
        row.remoteNonce.value, row.transcript.value, x.window.policy, x.window.anchors,
        BodyOf(peerNonce), BodyOf(peerPartial)));
    }

    /**
     A whole round.  What the transport delivers is arbitrary, or nothing; whatever happens, the durable
     state moves only forward.  The round finishes exactly when its commits are accepted, its own frames
     are well formed and the peer's partial verifies; it then rests on exactly the two delivered frames.
     */
    method Drive(x: SigningContext, random: Randomness, sign: Bytes -> Bytes, nonceDelivered: Option<Bytes>,
                 partialDelivered: Option<Bytes>, verifies: bool)
      returns (r: Result<Completion, DriverError>)
      requires Valid()
      requires nonceDelivered.Some? ==> Framed(nonceDelivered.value)
      requires partialDelivered.Some? ==> Framed(partialDelivered.value)
      modifies this
      ensures Valid() && old(log) <= log
      ensures r.Ok? <==>
        && nonceDelivered.Some? && partialDelivered.Some? && verifies
        && Completes(k, old(party), x, random, sign, nonceDelivered.value, partialDelivered.value)
      ensures r.Ok? ==>
        && Round(k, old(party), x, random, nonceDelivered.value, partialDelivered.value) == Ok(party)
        && r.value in party.completed && r.value.session == x.session
        && r.value.nonceFrame == BodyOf(nonceDelivered.value) && r.value.partialFrame == BodyOf(partialDelivered.value)
    {
      hide Framed, Replay, BodyFor, Unsigned, FrameBytes, BodyOf, FromPeer, ExposeEvents, AnswerEvents, FinishEvents;
      var nonce := ExposeClaimMessage(x, random, sign);
      if nonce.Err? {
        return Err(Signing(nonce.error));
      }
      if nonceDelivered.None? {
        return Err(TransportUnavailable);
      }
      var partial := ProduceClaimMessage(x, nonceDelivered.value, random, sign);
      if partial.Err? {
        return Err(Signing(partial.error));
      }
      if partialDelivered.None? {
        return Err(TransportUnavailable);
      }
      var done := AggregateClaimMessages(x, nonceDelivered.value, partialDelivered.value, verifies);
      r := match done case Ok(c) => Ok(c) case Err(e) => Err(Signing(e));
    }
  }

  // ===== A round as a function of the state it starts in

  /** The states after each of the three operations. */
  function AfterExpose(k: Crypto, p: Party, x: SigningContext, random: Randomness): Committed {
    Replay(k, p, ExposeEvents(p, x, random))
  }

  function AfterAnswer(k: Crypto, p: Party, x: SigningContext, random: Randomness, m: Bytes): Committed {
    var p :- AfterExpose(k, p, x, random);
    Replay(k, p, AnswerEvents(p, x, m, random))
  }

  function Round(k: Crypto, p: Party, x: SigningContext, random: Randomness, m: Bytes, n: Bytes): Committed {
    var p :- AfterAnswer(k, p, x, random, m);
    Replay(k, p, FinishEvents(x, m, n))
  }

  /** The row has a nonce to send, and its frame is well formed. */
  predicate NonceSendable(p: Party, x: SigningContext, sign: Bytes -> Bytes) {
    && x.session.effectId in p.rows && RowOf(p, x).localNonce.Some?
    && var b := BodyFor(x, RowOf(p, x).session, NONCE, RowOf(p, x).localNonce.value); Framed(FrameBytes(b, sign(Unsigned(b))))
  }

  predicate PartialSendable(p: Party, x: SigningContext, sign: Bytes -> Bytes) {
    && x.session.effectId in p.rows && RowOf(p, x).localPartial.Some? && RowOf(p, x).transcript.Some?
    && var b := BodyFor(x, RowOf(p, x).session, PARTIAL, RowOf(p, x).transcript.value + RowOf(p, x).localPartial.value);
       Framed(FrameBytes(b, sign(Unsigned(b))))
  }

  predicate Completes(k: Crypto, p: Party, x: SigningContext, random: Randomness, sign: Bytes -> Bytes, m: Bytes, n: Bytes) {
    && AfterExpose(k, p, x, random).Ok? && NonceSendable(AfterExpose(k, p, x, random).value, x, sign)
    && AfterAnswer(k, p, x, random, m).Ok? && PartialSendable(AfterAnswer(k, p, x, random, m).value, x, sign)
    && Round(k, p, x, random, m, n).Ok?
  }

  lemma ReplayNone(k: Crypto, p: Party)
    ensures Replay(k, p, []) == Ok(p)
  {
  }

  lemma SplitReplay(k: Crypto, p: Party, first: Event, middle: seq<Event>, last: Event)
    ensures var all, a := Replay(k, p, [first] + (middle + [last])), Apply(k, p, first);
      && (a.Err? ==> all == a)
      && (a.Ok? ==>
           && (Replay(k, a.value, middle).Err? ==> all == Replay(k, a.value, middle))
           && (Replay(k, a.value, middle).Ok? ==> all == Apply(k, Replay(k, a.value, middle).value, last)))
  {
    hide Apply, Replay;
    ReplayJoins(k, p, [first], middle + [last]);
    ReplayOne(k, p, first);
    if Apply(k, p, first).Ok? {
      var q := Apply(k, p, first).value;
      ReplayJoins(k, q, middle, [last]);
      if Replay(k, q, middle).Ok? {
        ReplayOne(k, Replay(k, q, middle).value, last);
      }
    }
  }

  lemma UnauthenticRefused(k: Crypto, p: Party, x: SigningContext, m: Bytes)
    ensures !FromPeer(k, x, m, NONCE) ==> Apply(k, p, BindRemote(x, m)).Err?
  {
    hide FromPeer;
  }

  datatype DriverError = Signing(error: ClaimError) | TransportUnavailable | EnvelopeRejected

  lemma OpenedRow(k: Crypto, p: Party, x: SigningContext)
    requires Apply(k, p, Open(x)).Ok?
    ensures var q := Apply(k, p, Open(x)).value;
      && x.session.effectId in q.rows && q.vault == p.vault
      && (x.session.effectId in p.rows ==> RowOf(q, x) == RowOf(p, x))
      && (RowOf(q, x).localNonce.None? <==> LacksNonce(p, x))
  {
    hide Authorized;
  }

  lemma SendNonceFacts(k: Crypto, p: Party, x: SigningContext)
    requires Apply(k, p, SendNonce(x)).Ok?
    ensures var q := Apply(k, p, SendNonce(x)).value;
      && x.session.effectId in q.rows && RowOf(q, x).localNonce.Some? && q.vault == p.vault
      && (x.session.effectId in p.rows ==> RowOf(q, x) == RowOf(p, x))
      && BodyFor(x, RowOf(q, x).session, NONCE, RowOf(q, x).localNonce.value) in q.authored
  {
    hide Authorized, BodyFor;
  }

  lemma BoundRow(k: Crypto, p: Party, x: SigningContext, m: Bytes)
    requires Framed(m) && Apply(k, p, BindRemote(x, m)).Ok?
    ensures var q := Apply(k, p, BindRemote(x, m)).value;
      x.session.effectId in q.rows && (RowOf(q, x).localPartial.None? <==> LacksPartial(p, x))
  {
    hide Authorized, Framed, FromPeer;
  }

  lemma SendPartialFacts(k: Crypto, p: Party, x: SigningContext, m: Bytes)
    requires Framed(m) && Apply(k, p, SendPartial(x, m)).Ok?
    ensures var q := Apply(k, p, SendPartial(x, m)).value;
      && x.session.effectId in q.rows
      && var r := RowOf(q, x);
      && r.remoteNonce == Some(BodyOf(m).payload) && r.localPartial.Some? && r.transcript.Some?
      && BodyFor(x, r.session, PARTIAL, r.transcript.value + r.localPartial.value) in q.authored
  {
    hide Authorized, BodyFor, Framed, FromPeer;
  }

  lemma CompleteFacts(k: Crypto, p: Party, x: SigningContext, m: Bytes, n: Bytes)
    requires Framed(m) && Framed(n) && Apply(k, p, Complete(x, m, n)).Ok?
    ensures var q := Apply(k, p, Complete(x, m, n)).value;
      && x.session.effectId in q.rows
      && var r := RowOf(q, x);
      && r.remoteNonce.Some? && r.transcript.Some? && VaultNonce(k, q, x.session).Some?
      && Completion(x.session, r.session, x.authority.role, VaultNonce(k, q, x.session).value, r.remoteNonce.value,
           r.transcript.value, x.window.policy, x.window.anchors, BodyOf(m), BodyOf(n)) in q.completed
  {
    hide Authorized, Framed, FromPeer, Reservation, TranscriptDigest;
  }
}
