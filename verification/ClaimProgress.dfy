/**
 A claim round makes progress: from any state an interrupted attempt may have
 left, the commits of a new attempt are all accepted and finish the round.
 */
module ClaimProgress {
  import opened Wire
  import opened ActuationScope
  import opened ClaimSession
  import opened ClaimWire
  import opened ClaimStore
  import opened ClaimTrack
  import opened ClaimActuator

  // ===== One participant

  lemma ThreeSteps(k: Crypto, p: Party, e1: Event, e2: Event, e3: Event)
    requires Apply(k, p, e1).Ok? && Apply(k, Apply(k, p, e1).value, e2).Ok?
    ensures Replay(k, p, [e1, e2, e3]) == Apply(k, Apply(k, Apply(k, p, e1).value, e2).value, e3)
  {
    hide Apply;
    var es := [e1, e2, e3];
    assert es[..2] == [e1, e2] && es[..2][..1] == [e1] && [e1][..0] == [];
    assert Replay(k, p, [e1]) == Apply(k, p, e1);
    assert Replay(k, p, [e1, e2]) == Apply(k, Apply(k, p, e1).value, e2);
  }

  lemma FourSteps(k: Crypto, p: Party, e1: Event, e2: Event, e3: Event, e4: Event)
    requires Apply(k, p, e1).Ok? && Apply(k, Apply(k, p, e1).value, e2).Ok?
    requires Apply(k, Apply(k, Apply(k, p, e1).value, e2).value, e3).Ok?
    ensures Replay(k, p, [e1, e2, e3, e4]) == Apply(k, Apply(k, Apply(k, Apply(k, p, e1).value, e2).value, e3).value, e4)
  {
    hide Apply;
    var es := [e1, e2, e3, e4];
    assert es[..3] == [e1, e2, e3];
    ThreeSteps(k, p, e1, e2, e3);
  }

  /** The reservation as it is once the nonce is committed. */
  predicate NonceSettled(k: Crypto, p: Party, q: Party, x: SigningContext, random: Randomness) {
    && HasNonce(k, q, x) && ReservedFor(k, q, x).value.nonce.value == NonceUsed(k, p, x, random.nonce)
    && PartialUsed(k, q, x, random.partial) == PartialUsed(k, p, x, random.partial)
  }

  lemma NonceCommitted(k: Crypto, p: Party, x: SigningContext, digest: Bytes, c: Counterpart, random: Randomness)
    requires OnTrack(k, p, x, digest, c) && |random.nonce| == 66 && random.nonce != c.nonce
    ensures var a := Apply(k, p, Reserve(x)); a.Ok? && Apply(k, a.value, CommitNonce(x, random.nonce)).Ok?
    ensures var q := Apply(k, Apply(k, p, Reserve(x)).value, CommitNonce(x, random.nonce)).value;
      OnTrack(k, q, x, digest, c) && q == p.(vault := q.vault) && NonceSettled(k, p, q, x, random)
  {
    hide Apply, OnTrack, ReservedFor;
    ReserveTracks(k, p, x, digest, c);
    CommitNonceTracks(k, Apply(k, p, Reserve(x)).value, x, digest, c, random.nonce);
  }

  /** What the first operation needs is always there: it journals and releases the nonce the round uses. */
  lemma ExposeProgress(k: Crypto, p: Party, x: SigningContext, digest: Bytes, c: Counterpart, random: Randomness)
    requires OnTrack(k, p, x, digest, c) && |random.nonce| == 66 && random.nonce != c.nonce
    ensures AfterExpose(k, p, x, random).Ok?
    ensures var q := AfterExpose(k, p, x, random).value;
      && OnTrack(k, q, x, digest, c) && HasRow(q, x) && NonceSettled(k, p, q, x, random)
      && RowOf(q, x).localNonce == Some(NonceUsed(k, p, x, random.nonce))
      && BodyFor(x, digest, NONCE, NonceUsed(k, p, x, random.nonce)) in q.authored
  {
    hide Apply, Replay, BodyFor, ReservedOnTrack, Authorized, ReservedFor, OwnsRow, TranscriptPreimage;
    OpenTracks(k, p, x, digest, c);
    var q0 := Opened(k, p, x).value;
    OpenIsOpened(k, p, x);
    if LacksNonce(p, x) {
      SplitReplay(k, p, Open(x), NonceCommits(x, random), SendNonce(x));
      NonceCommitted(k, q0, x, digest, c, random);
      var q2 := Apply(k, Apply(k, q0, Reserve(x)).value, CommitNonce(x, random.nonce)).value;
      ThreeSteps(k, q0, Reserve(x), CommitNonce(x, random.nonce), RecordNonce(x));
      RecordNonceTracks(k, q2, x, digest, c);
      SendNonceTracks(k, Apply(k, q2, RecordNonce(x)).value, x, digest, c);
    } else {
      SplitReplay(k, p, Open(x), [], SendNonce(x));
      ReplayNone(k, q0);
      SendNonceTracks(k, q0, x, digest, c);
    }
  }

  lemma OpenIsOpened(k: Crypto, p: Party, x: SigningContext)
    ensures Apply(k, p, Open(x)) == Opened(k, p, x)
  {
  }

  /** Given the peer's nonce frame, the second operation journals and releases the partial for the joint transcript. */
  lemma AnswerProgress(k: Crypto, p: Party, x: SigningContext, digest: Bytes, c: Counterpart, random: Randomness, m: Bytes)
    requires OnTrack(k, p, x, digest, c) && HasNonce(k, p, x) && FromPeer(k, x, m, NONCE) && BodyOf(m).payload == c.nonce
    requires k.isNonce(c.nonce) && |random.nonce| == 66 && random.nonce != c.nonce && |random.partial| == 32
    ensures Replay(k, p, AnswerEvents(p, x, m, random)).Ok?
    ensures var q := Replay(k, p, AnswerEvents(p, x, m, random)).value;
      var t := Transcript(k, digest, ReservedFor(k, p, x).value.nonce.value, c);
      && OnTrack(k, q, x, digest, c) && HasRow(q, x)
      && HasNonce(k, q, x) && ReservedFor(k, q, x).value.nonce == ReservedFor(k, p, x).value.nonce
      && RowOf(q, x).localPartial == Some(PartialUsed(k, p, x, random.partial)) && RowOf(q, x).transcript == Some(t)
      && BodyFor(x, digest, PARTIAL, t + PartialUsed(k, p, x, random.partial)) in q.authored
  {
    hide Apply, Replay, BodyFor, ReservedOnTrack, Authorized, ReservedFor, OwnsRow, TranscriptPreimage, FromPeer, BodyOf, Framed;
    BindRemoteTracks(k, p, x, digest, c, m);
    var q0 := Apply(k, p, BindRemote(x, m)).value;
    if LacksPartial(p, x) {
      SplitReplay(k, p, BindRemote(x, m), PartialCommits(x, random), SendPartial(x, m));
      ReserveTracks(k, q0, x, digest, c);
      CommitNonceTracks(k, q0, x, digest, c, random.nonce);
      CommitPartialTracks(k, q0, x, digest, c, random.partial);
      var q1 := Apply(k, q0, CommitPartial(x, random.partial)).value;
      RecordPartialTracks(k, q1, x, digest, c);
      FourSteps(k, q0, Reserve(x), CommitNonce(x, random.nonce), CommitPartial(x, random.partial), RecordPartial(x));
      SendPartialTracks(k, Apply(k, q1, RecordPartial(x)).value, x, digest, c, m);
    } else {
      SplitReplay(k, p, BindRemote(x, m), [], SendPartial(x, m));
      ReplayNone(k, q0);
      SendPartialTracks(k, q0, x, digest, c, m);
    }
  }

  /** With the peer's partial for that transcript the third operation finishes the round. */
  lemma FinishProgress(k: Crypto, p: Party, x: SigningContext, digest: Bytes, c: Counterpart, m: Bytes, n: Bytes)
    requires OnTrack(k, p, x, digest, c) && HasRow(p, x) && RowOf(p, x).localPartial.Some? && Wide(k.hash)
    requires PeerDelivers(k, p, x, digest, c, m, n)
    ensures Replay(k, p, FinishEvents(x, m, n)).Ok?
    ensures var q := Replay(k, p, FinishEvents(x, m, n)).value; var nonce := ReservedFor(k, p, x).value.nonce.value;
      Completion(x.session, digest, x.authority.role, nonce, c.nonce, Transcript(k, digest, nonce, c),
        x.window.policy, x.window.anchors, BodyOf(m), BodyOf(n)) in q.completed
  {
    hide Apply, Replay, OnTrack, Transcript, FromPeer, BodyOf, Framed, ReservedFor;
    SplitReplay(k, p, BindPartial(x, m, n), [], Complete(x, m, n));
    assert [BindPartial(x, m, n)] + ([] + [Complete(x, m, n)]) == FinishEvents(x, m, n);
    BindPartialTracks(k, p, x, digest, c, m, n);
    var q := Apply(k, p, BindPartial(x, m, n)).value;
    ReplayNone(k, q);
    CompleteTracks(k, q, x, digest, c, m, n);
  }

  /** Fields that make this participant's frames well formed, and a signer that signs in 64 bytes. */
  predicate HeadersFit(x: SigningContext, digest: Bytes) {
    && |digest| == 32 && |x.authority.participantId| == 32 && |x.window.policy| == 32 && |x.window.anchors| == 32
    && digest != ZERO32 && x.authority.participantId != ZERO32 && x.window.policy != ZERO32 && x.window.anchors != ZERO32
  }

  lemma FrameFits(x: SigningContext, digest: Bytes, kind: Byte, payload: Bytes, signature: Bytes)
    requires HeadersFit(x, digest) && (kind == NONCE || kind == PARTIAL) && |payload| == PayloadSize(kind) && |signature| == 64
    ensures Framed(FrameBytes(BodyFor(x, digest, kind, payload), signature))
  {
    hide Framed, Unsigned, BodyOf;
    Disassembled(BodyFor(x, digest, kind, payload), signature);
  }

  /** The peer's two frames for the nonce this participant uses. */
  predicate Answers(k: Crypto, x: SigningContext, digest: Bytes, c: Counterpart, nonce: Bytes, m: Bytes, n: Bytes) {
    && FromPeer(k, x, m, NONCE) && BodyOf(m).payload == c.nonce && k.isNonce(c.nonce)
    && FromPeer(k, x, n, PARTIAL) && BodyOf(n).payload == Transcript(k, digest, nonce, c) + c.partial
  }

  predicate Fresh(random: Randomness, c: Counterpart) {
    |random.nonce| == 66 && random.nonce != c.nonce && |random.partial| == 32
  }

  function Finished(k: Crypto, x: SigningContext, digest: Bytes, c: Counterpart, nonce: Bytes, m: Bytes, n: Bytes): Completion
    requires Framed(m) && Framed(n)
  {
    Completion(x.session, digest, x.authority.role, nonce, c.nonce, Transcript(k, digest, nonce, c),
      x.window.policy, x.window.anchors, BodyOf(m), BodyOf(n))
  }

  /** From every state on track a whole round on the peer's frames completes, with the nonce reserved first. */
  lemma RoundCompletes(k: Crypto, p: Party, x: SigningContext, digest: Bytes, c: Counterpart, random: Randomness,
                       sign: Bytes -> Bytes, m: Bytes, n: Bytes)
    requires OnTrack(k, p, x, digest, c) && Wide(k.hash) && Fresh(random, c) && HeadersFit(x, digest)
    requires Answers(k, x, digest, c, NonceUsed(k, p, x, random.nonce), m, n)
    requires forall u :: |sign(u)| == 64
    ensures Completes(k, p, x, random, sign, m, n)
    ensures Finished(k, x, digest, c, NonceUsed(k, p, x, random.nonce), m, n) in Round(k, p, x, random, m, n).value.completed
  {
    hide Replay, FromPeer, BodyOf, Framed, ExposeEvents, AnswerEvents, FinishEvents, Unsigned, FrameBytes, BodyFor,
         TranscriptPreimage, Authorized, ReservationOf;
    ExposeProgress(k, p, x, digest, c, random);
    var q := AfterExpose(k, p, x, random).value;
    var b := BodyFor(x, digest, NONCE, RowOf(q, x).localNonce.value);
    FrameFits(x, digest, NONCE, RowOf(q, x).localNonce.value, sign(Unsigned(b)));
    AnswerProgress(k, q, x, digest, c, random, m);
    var s := AfterAnswer(k, p, x, random, m).value;
    var payload := RowOf(s, x).transcript.value + RowOf(s, x).localPartial.value;
    FrameFits(x, digest, PARTIAL, payload, sign(Unsigned(BodyFor(x, digest, PARTIAL, payload))));
    FinishProgress(k, s, x, digest, c, m, n);
  }

  // ===== Interruptions

  /** After any number of interrupted attempts, each stopped at any commit, the participant is on track. */
  lemma {:induction false} InterruptedOnTrack(k: Crypto, p: Party, x: SigningContext, digest: Bytes, c: Counterpart,
                                              es: seq<Event>)
    requires OnTrack(k, p, x, digest, c) && Wide(k.hash) && (forall i :: 0 <= i < |es| ==> OfRound(k, x, c, es[i]))
    requires Replay(k, p, es).Ok?
    ensures OnTrack(k, Replay(k, p, es).value, x, digest, c)
  {
    hide Apply, OnTrack, OfRound;
    if es != [] {
      var rest := es[..|es| - 1];
      InterruptedOnTrack(k, p, x, digest, c, rest);
      RoundTracks(k, Replay(k, p, rest).value, x, digest, c, es[|es| - 1]);
    }
  }

  /** The commits of an attempt belong to the round. */
  lemma AttemptOfRound(k: Crypto, p: Party, q: Party, x: SigningContext, c: Counterpart, random: Randomness, m: Bytes, n: Bytes)
    requires Fresh(random, c) && Framed(m) && BodyOf(m).payload == c.nonce
    requires Framed(n) && |BodyOf(n).payload| == 64 && BodyOf(n).payload[32..] == c.partial
    ensures var es := ExposeEvents(p, x, random) + AnswerEvents(q, x, m, random) + FinishEvents(x, m, n);
      forall i :: 0 <= i < |es| ==> OfRound(k, x, c, es[i])
  {
    hide BodyOf, Framed;
    assert forall e :: e in ExposeEvents(p, x, random) ==> OfRound(k, x, c, e);
    assert forall e :: e in AnswerEvents(q, x, m, random) ==> OfRound(k, x, c, e);
    assert forall e :: e in FinishEvents(x, m, n) ==> OfRound(k, x, c, e);
  }

  /**
   A crash after any commit of any attempt loses nothing: whatever commits of the round were made before
   it, the retry from phase one completes on the peer's frames, with the nonce that was reserved first.
   */
  lemma RetryCompletes(k: Crypto, p: Party, x: SigningContext, digest: Bytes, c: Counterpart, es: seq<Event>, q: Party,
                       random: Randomness, sign: Bytes -> Bytes, m: Bytes, n: Bytes)
    requires Untouched(k, p, x) && Authorized(k, x) == Some(digest) && Wide(k.hash)
    requires (forall j :: 0 <= j < |es| ==> OfRound(k, x, c, es[j])) && Replay(k, p, es) == Ok(q)
    requires Fresh(random, c) && HeadersFit(x, digest) && (forall u :: |sign(u)| == 64)
    requires Answers(k, x, digest, c, NonceUsed(k, q, x, random.nonce), m, n)
    ensures Completes(k, q, x, random, sign, m, n)
    ensures Finished(k, x, digest, c, NonceUsed(k, q, x, random.nonce), m, n) in Round(k, q, x, random, m, n).value.completed
  {
    hide Apply, Replay, Authorized, OfRound, Completes, Round, FromPeer, BodyOf, Framed, Transcript, Untouched, OnTrack;
    UntouchedOnTrack(k, p, x, digest, c);
    InterruptedOnTrack(k, p, x, digest, c, es);
    RoundCompletes(k, q, x, digest, c, random, sign, m, n);
  }

  // ===== Two participants

  /** The two ends of one session: opposite roles of one roster, under the same policy and anchors. */
  predicate Opposite(k: Crypto, x: SigningContext, y: SigningContext, digest: Bytes) {
    && Authorized(k, x) == Some(digest) && Authorized(k, y) == Some(digest)
    && x.session.roster == y.session.roster && x.authority.role != y.authority.role
    && x.window.policy == y.window.policy && x.window.anchors == y.window.anchors
    && HeadersFit(x, digest) && HeadersFit(y, digest)
  }

  lemma OwnIsPeer(k: Crypto, x: SigningContext, y: SigningContext, digest: Bytes)
    requires Opposite(k, x, y, digest)
    ensures Peer(y.authority.role, y.session.roster) == Participant(x.authority.participantId, x.authority.role, x.authority.key)
  {
    hide SessionDigest, TimingMatches, ScopeMatches, BuildContext;
  }

  /** What one end signs, the other accepts. */
  lemma FrameAccepted(k: Crypto, x: SigningContext, y: SigningContext, digest: Bytes, kind: Byte, payload: Bytes,
                      signature: Bytes)
    requires Opposite(k, x, y, digest) && (kind == NONCE || kind == PARTIAL) && |payload| == PayloadSize(kind)
    requires |signature| == 64
    requires k.verify(XOnly(x.authority.key), k.hash(MessagePreimage(Unsigned(BodyFor(x, digest, kind, payload)))), signature)
    ensures var m := FrameBytes(BodyFor(x, digest, kind, payload), signature);
      FromPeer(k, y, m, kind) && BodyOf(m) == BodyFor(x, digest, kind, payload)
  {
    hide Authorized, Unsigned, MessagePreimage;
    var b := BodyFor(x, digest, kind, payload);
    var m := FrameBytes(b, signature);
    OwnIsPeer(k, x, y, digest);
    Disassembled(b, signature);
    Reassembled(m);
  }

  /** One end: its durable state, its context, fresh randomness and its signer. */
  datatype Side = Side(party: Party, x: SigningContext, random: Randomness, sign: Bytes -> Bytes)

  function NonceBy(k: Crypto, s: Side): Bytes {
    NonceUsed(k, s.party, s.x, s.random.nonce)
  }

  /** What this end contributes to the other end's round. */
  function Offers(k: Crypto, s: Side): Counterpart {
    Counterpart(NonceBy(k, s), PartialUsed(k, s.party, s.x, s.random.partial))
  }

  function Joint(k: Crypto, a: Side, b: Side, digest: Bytes): Bytes {
    Transcript(k, digest, NonceBy(k, a), Offers(k, b))
  }

  function NonceFrame(k: Crypto, s: Side, digest: Bytes): Bytes {
    var b := BodyFor(s.x, digest, NONCE, NonceBy(k, s));
    FrameBytes(b, s.sign(Unsigned(b)))
  }

  function PartialFrame(k: Crypto, s: Side, digest: Bytes, t: Bytes): Bytes {
    var b := BodyFor(s.x, digest, PARTIAL, t + Offers(k, s).partial);
    FrameBytes(b, s.sign(Unsigned(b)))
  }

  /** Signatures made with the participant's key verify under it. */
  ghost predicate SignsWell(k: Crypto, s: Side) {
    forall u :: |s.sign(u)| == 64 && k.verify(XOnly(s.x.authority.key), k.hash(MessagePreimage(u)), s.sign(u))
  }

  ghost predicate CanRun(k: Crypto, s: Side, digest: Bytes, other: Counterpart) {
    && OnTrack(k, s.party, s.x, digest, other) && SignsWell(k, s) && Fresh(s.random, other) && k.isNonce(NonceBy(k, s))
  }

  lemma OffersSized(k: Crypto, s: Side, digest: Bytes, other: Counterpart)
    requires CanRun(k, s, digest, other)
    ensures |Offers(k, s).nonce| == 66 && Offers(k, s).nonce != other.nonce && |Offers(k, s).partial| == 32
  {
    hide SignsWell, Authorized, RowOnTrack, ReservationOf, OwnsRow;
  }

  /** What one end sends is an answer to the other end's nonce. */
  lemma FramesAnswer(k: Crypto, a: Side, b: Side, digest: Bytes, t: Bytes)
    requires CanRun(k, b, digest, Offers(k, a)) && Opposite(k, b.x, a.x, digest) && Wide(k.hash) && t == Joint(k, a, b, digest)
    ensures Answers(k, a.x, digest, Offers(k, b), NonceBy(k, a), NonceFrame(k, b, digest), PartialFrame(k, b, digest, t))
    ensures BodyOf(NonceFrame(k, b, digest)) == BodyFor(b.x, digest, NONCE, NonceBy(k, b))
    ensures BodyOf(PartialFrame(k, b, digest, t)) == BodyFor(b.x, digest, PARTIAL, t + Offers(k, b).partial)
  {
    hide OnTrack, Opposite, NonceUsed, PartialUsed, Unsigned, MessagePreimage, FromPeer, BodyOf, Framed, TranscriptPreimage;
    OffersSized(k, b, digest, Offers(k, a));
    var nonce, partial := NonceBy(k, b), t + Offers(k, b).partial;
    FrameAccepted(k, b.x, a.x, digest, NONCE, nonce, b.sign(Unsigned(BodyFor(b.x, digest, NONCE, nonce))));
    FrameAccepted(k, b.x, a.x, digest, PARTIAL, partial, b.sign(Unsigned(BodyFor(b.x, digest, PARTIAL, partial))));
  }

  lemma JointSymmetric(k: Crypto, a: Side, b: Side, digest: Bytes)
    ensures Joint(k, a, b, digest) == Joint(k, b, a, digest)
  {
    TranscriptSymmetric(digest, NonceBy(k, a), NonceBy(k, b));
  }

  /** One end finishes on the frames of the other end. */
  lemma SideCompletes(k: Crypto, a: Side, b: Side, digest: Bytes)
    requires Wide(k.hash) && CanRun(k, a, digest, Offers(k, b)) && CanRun(k, b, digest, Offers(k, a))
    requires Opposite(k, b.x, a.x, digest)
    ensures var t := Joint(k, a, b, digest);
      var m, n := NonceFrame(k, b, digest), PartialFrame(k, b, digest, t);
      && Framed(m) && Framed(n) && Completes(k, a.party, a.x, a.random, a.sign, m, n)
      && Finished(k, a.x, digest, Offers(k, b), NonceBy(k, a), m, n) in Round(k, a.party, a.x, a.random, m, n).value.completed
  {
    hide OnTrack, Completes, Round, NonceFrame, PartialFrame, NonceUsed, PartialUsed, FromPeer, BodyOf, Framed, Transcript, Authorized;
    var t := Joint(k, a, b, digest);
    FramesAnswer(k, a, b, digest, t);
    RoundCompletes(k, a.party, a.x, digest, Offers(k, b), a.random, a.sign, NonceFrame(k, b, digest), PartialFrame(k, b, digest, t));
    AnswersFramed(k, a.x, digest, Offers(k, b), NonceBy(k, a), NonceFrame(k, b, digest), PartialFrame(k, b, digest, t));
  }

  lemma AnswersFramed(k: Crypto, x: SigningContext, digest: Bytes, c: Counterpart, nonce: Bytes, m: Bytes, n: Bytes)
    requires Answers(k, x, digest, c, nonce, m, n)
    ensures Framed(m) && Framed(n)
  {
  }

  /**
   Two ends, each in any state on track, both finish on each other's frames, on the same pair of nonces
   and the same transcript.
   */
  lemma BothEndsComplete(k: Crypto, a: Side, b: Side, digest: Bytes)
    requires Wide(k.hash) && CanRun(k, a, digest, Offers(k, b)) && CanRun(k, b, digest, Offers(k, a))
    requires Opposite(k, a.x, b.x, digest) && Opposite(k, b.x, a.x, digest)
    ensures var t := Joint(k, a, b, digest);
      && Completes(k, a.party, a.x, a.random, a.sign, NonceFrame(k, b, digest), PartialFrame(k, b, digest, t))
      && Completes(k, b.party, b.x, b.random, b.sign, NonceFrame(k, a, digest), PartialFrame(k, a, digest, t))
      && (exists c :: c in Round(k, a.party, a.x, a.random, NonceFrame(k, b, digest), PartialFrame(k, b, digest, t)).value.completed
           && c.digest == digest && c.local == NonceBy(k, a) && c.remote == NonceBy(k, b) && c.transcript == t)
      && (exists c :: c in Round(k, b.party, b.x, b.random, NonceFrame(k, a, digest), PartialFrame(k, a, digest, t)).value.completed
           && c.digest == digest && c.local == NonceBy(k, b) && c.remote == NonceBy(k, a) && c.transcript == t)
  {
    hide CanRun, Opposite, Completes, Round, NonceFrame, PartialFrame, NonceUsed, PartialUsed, BodyOf, Framed;
    JointSymmetric(k, a, b, digest);
    SideCompletes(k, a, b, digest);
    SideCompletes(k, b, a, digest);
  }
}
