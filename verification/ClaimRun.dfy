/**
 The logs of two participants form a run of the protocol: an undisturbed
 round, interleaved operation by operation, ends with both rounds finished.
 */
module ClaimRun {
  import opened Wire
  import opened ActuationScope
  import opened ClaimSession
  import opened ClaimWire
  import opened ClaimStore
  import opened ClaimTrack
  import opened ClaimActuator
  import opened ClaimProgress
  import opened ClaimProtocol

  // ===== Runs grow by the commits of one participant

  /** The byte strings one step hashes. */
  function Hashes(k: Crypto, e: Event, p: Party, q: Party): set<Bytes> {
    var i, n := e.x.session.effectId, VaultNonce(k, q, e.x.session);
    SessionHashed(k, e.x.session)
    + (set m | m in FramesOf(e) && Framed(m) :: MessagePreimage(m[..|m| - 64]))
    + (set b | b in q.authored - p.authored :: MessagePreimage(Unsigned(b)))
    + (if i in q.rows && n.Some? && q.rows[i].remoteNonce.Some?
       then {TranscriptPreimage(q.rows[i].session, n.value, q.rows[i].remoteNonce.value)} else {})
  }

  lemma HashesSuffice(k: Crypto, e: Event, p: Party, q: Party, hashed: set<Bytes>)
    requires Hashes(k, e, p, q) <= hashed
    ensures HashesWithin(k, e, p, q, hashed)
  {
    hide SessionHashed, VaultNonce, MessagePreimage, Unsigned, TranscriptPreimage, FramesOf;
    forall m | m in FramesOf(e) && Framed(m)
      ensures MessagePreimage(m[..|m| - 64]) in hashed
    {
      assert MessagePreimage(m[..|m| - 64]) in Hashes(k, e, p, q);
    }
  }

  lemma StepWider(k: Crypto, hashed: set<Bytes>, more: set<Bytes>, w: World, i: Bytes, e: Event, w': World)
    requires Step(k, hashed, w, i, e, w') && hashed <= more
    ensures Step(k, more, w, i, e, w')
  {
    hide Apply, WellTyped, FramesGenuine, SessionHashed, VaultNonce, MessagePreimage, Unsigned, TranscriptPreimage, Framed, FramesOf;
  }

  datatype Trace = Trace(hashed: set<Bytes>, worlds: seq<World>, steps: seq<(Bytes, Event)>)

  ghost predicate IsRun(k: Crypto, t: Trace) {
    Run(k, t.hashed, t.worlds, t.steps)
  }

  function Now(t: Trace): World {
    if t.worlds == [] then map[] else t.worlds[|t.worlds| - 1]
  }

  /** One more accepted commit. */
  lemma RunSteps(k: Crypto, t: Trace, i: Bytes, e: Event) returns (u: Trace)
    requires IsRun(k, t) && i in Now(t) && WellTyped(Now(t)[i], e) && FramesGenuine(k, Now(t), e) && Apply(k, Now(t)[i], e).Ok?
    ensures IsRun(k, u) && Now(u) == Now(t)[i := Apply(k, Now(t)[i], e).value] && u.steps == t.steps + [(i, e)]
  {
    hide Apply, WellTyped, FramesGenuine, Hashes, HashesWithin, Start;
    var p := Now(t)[i];
    var q := Apply(k, p, e).value;
    u := Trace(t.hashed + Hashes(k, e, p, q), t.worlds + [Now(t)[i := q]], t.steps + [(i, e)]);
    HashesSuffice(k, e, p, q, u.hashed);
    forall j | 0 <= j < |u.steps|
      ensures Step(k, u.hashed, u.worlds[j], u.steps[j].0, u.steps[j].1, u.worlds[j + 1])
    {
      if j < |t.steps| {
        StepWider(k, t.hashed, u.hashed, t.worlds[j], t.steps[j].0, t.steps[j].1, t.worlds[j + 1]);
      }
    }
  }

  predicate TypedFor(keys: set<Bytes>, e: Event) {
    && SessionTyped(e.x.session) && |e.x.authority.participantId| == 32 && |e.x.window.policy| == 32
    && |e.x.window.anchors| == 32 && e.x.authority.key in keys
    && (e.CommitNonce? ==> |e.made| == 66) && (e.CommitPartial? ==> |e.made| == 32)
  }

  /** Signed bodies stay signed, so what was genuine stays genuine. */
  lemma GenuineStays(k: Crypto, w: World, i: Bytes, q: Party, e: Event)
    requires i in w && Extends(w[i], q) && FramesGenuine(k, w, e)
    ensures FramesGenuine(k, w[i := q], e)
  {
    hide MessagePreimage, Unsigned, FramesOf, XOnly;
    var w' := w[i := q];
    assert forall j :: j in w' <==> j in w;
    assert forall j, xonly :: j in w ==> (HoldsKey(w'[j], xonly) <==> HoldsKey(w[j], xonly));
    assert forall j, b :: j in w && b in w[j].authored ==> b in w'[j].authored;
    forall m | m in FramesOf(e) && Framed(m)
      ensures Genuine(k, w', XOnly(Peer(e.x.authority.role, e.x.session.roster).key), k.hash(MessagePreimage(m[..|m| - 64])))
    {
      var xonly, d := XOnly(Peer(e.x.authority.role, e.x.session.roster).key), k.hash(MessagePreimage(m[..|m| - 64]));
      assert Genuine(k, w, xonly, d);
      if j :| j in w' && HoldsKey(w'[j], xonly) {
        assert j in w && HoldsKey(w[j], xonly);
        var i', b :| i' in w && HoldsKey(w[i'], xonly) && b in w[i'].authored && k.hash(MessagePreimage(Unsigned(b))) == d;
        assert i' in w' && HoldsKey(w'[i'], xonly) && b in w'[i'].authored;
      }
    }
  }

  /** A participant's accepted commits extend any run, when the frames they take are genuine. */
  lemma {:induction false} RunReplays(k: Crypto, t: Trace, i: Bytes, es: seq<Event>) returns (u: Trace)
    requires IsRun(k, t) && i in Now(t) && Replay(k, Now(t)[i], es).Ok?
    requires forall j :: 0 <= j < |es| ==> TypedFor(Now(t)[i].keys, es[j]) && FramesGenuine(k, Now(t), es[j])
    ensures IsRun(k, u) && Now(u) == Now(t)[i := Replay(k, Now(t)[i], es).value]
    ensures u.steps == t.steps + seq(|es|, j requires 0 <= j < |es| => (i, es[j]))
    ensures Extends(Now(t)[i], Now(u)[i])
    decreases |es|
  {
    hide Apply, IsRun, FramesGenuine, SessionTyped, Extends;
    if es == [] {
      u := t;
      ExtendsItself(Now(t)[i]);
      assert Now(t)[i := Now(t)[i]] == Now(t);
    } else {
      var rest, e := es[..|es| - 1], es[|es| - 1];
      var s := RunReplays(k, t, i, rest);
      var p := Now(t)[i];
      var q := Now(s)[i];
      GenuineStays(k, Now(t), i, q, e);
      SameKeys(p, q);
      u := RunSteps(k, s, i, e);
      ApplyExtends(k, q, e);
      ExtendsTransitive(p, q, Apply(k, q, e).value);
      assert Now(s)[i := Apply(k, q, e).value] == Now(t)[i := Apply(k, q, e).value];
    }
  }

  lemma SameKeys(p: Party, q: Party)
    requires Extends(p, q)
    ensures q.keys == p.keys
  {
  }

  // ===== The undisturbed round

  /** A participant at the start of a run, ready for its session. */
  ghost predicate Enters(k: Crypto, s: Side, digest: Bytes, other: Counterpart) {
    && CanRun(k, s, digest, other) && SessionTyped(s.x.session) && s.x.authority.key in s.party.keys
    && s.party == Party(s.x.authority.participantId, s.party.keys, map[], map[], map[], {}, {})
  }

  function Beginning(a: Side, b: Side): Trace {
    Trace({}, [map[a.party.id := a.party, b.party.id := b.party]], [])
  }

  lemma BeginningRuns(k: Crypto, a: Side, b: Side, digest: Bytes, oa: Counterpart, ob: Counterpart)
    requires Enters(k, a, digest, ob) && Enters(k, b, digest, oa) && HeadersFit(a.x, digest) && HeadersFit(b.x, digest)
    ensures IsRun(k, Beginning(a, b))
  {
    hide CanRun;
  }

  lemma OperationsTyped(k: Crypto, s: Side, digest: Bytes, other: Counterpart, p: Party, q: Party, m: Bytes, n: Bytes)
    requires Enters(k, s, digest, other) && HeadersFit(s.x, digest)
    ensures forall e :: e in ExposeEvents(p, s.x, s.random) ==> TypedFor(s.party.keys, e) && FramesOf(e) == {}
    ensures forall e :: e in AnswerEvents(q, s.x, m, s.random) ==> TypedFor(s.party.keys, e) && FramesOf(e) <= {m}
    ensures forall e :: e in FinishEvents(s.x, m, n) ==> TypedFor(s.party.keys, e) && FramesOf(e) <= {m, n}
  {
    hide OnTrack, SignsWell, SessionTyped;
  }

  /** A frame whose body the other end has signed is genuine. */
  lemma FrameGenuine(k: Crypto, w: World, a: Side, b: Side, digest: Bytes, body: Body, signature: Bytes)
    requires Opposite(k, b.x, a.x, digest) && b.party.id in w && b.x.authority.key in w[b.party.id].keys
    requires body in w[b.party.id].authored && |signature| == 64
    ensures var m := FrameBytes(body, signature);
      |m| >= 64 && Genuine(k, w, XOnly(Peer(a.x.authority.role, a.x.session.roster).key), k.hash(MessagePreimage(m[..|m| - 64])))
  {
    hide Opposite, MessagePreimage, Unsigned, XOnly;
    OwnIsPeer(k, b.x, a.x, digest);
    var m := FrameBytes(body, signature);
    assert m[..|m| - 64] == Unsigned(body);
    assert HoldsKey(w[b.party.id], XOnly(b.x.authority.key));
  }

  lemma AllGenuine(k: Crypto, w: World, x: SigningContext, e: Event, frames: set<Bytes>)
    requires FramesOf(e) <= frames && e.x == x
    requires forall m :: m in frames ==>
      |m| >= 64 && Genuine(k, w, XOnly(Peer(x.authority.role, x.session.roster).key), k.hash(MessagePreimage(m[..|m| - 64])))
    ensures FramesGenuine(k, w, e)
  {
    hide Genuine, MessagePreimage, XOnly, FramesOf, Framed;
  }

  /** What each of one end's operations leaves behind, on the frames of the other end. */
  lemma Stages(k: Crypto, a: Side, b: Side, digest: Bytes)
    requires Wide(k.hash) && CanRun(k, a, digest, Offers(k, b)) && CanRun(k, b, digest, Offers(k, a))
    requires Opposite(k, b.x, a.x, digest)
    ensures var t := Joint(k, a, b, digest);
      var m, n := NonceFrame(k, b, digest), PartialFrame(k, b, digest, t);
      && AfterExpose(k, a.party, a.x, a.random).Ok?
      && BodyFor(a.x, digest, NONCE, NonceBy(k, a)) in AfterExpose(k, a.party, a.x, a.random).value.authored
      && AfterAnswer(k, a.party, a.x, a.random, m).Ok?
      && BodyFor(a.x, digest, PARTIAL, t + Offers(k, a).partial) in AfterAnswer(k, a.party, a.x, a.random, m).value.authored
      && Framed(m) && Framed(n) && Round(k, a.party, a.x, a.random, m, n).Ok?
      && Finished(k, a.x, digest, Offers(k, b), NonceBy(k, a), m, n) in Round(k, a.party, a.x, a.random, m, n).value.completed
  {
    hide OnTrack, Replay, NonceFrame, PartialFrame, FromPeer, BodyOf, Framed, Transcript, Authorized, ReservedFor, BodyFor,
         ExposeEvents, AnswerEvents, FinishEvents, NonceSendable, PartialSendable;
    var t := Joint(k, a, b, digest);
    FramesAnswer(k, a, b, digest, t);
    ExposeProgress(k, a.party, a.x, digest, Offers(k, b), a.random);
    AnswerProgress(k, AfterExpose(k, a.party, a.x, a.random).value, a.x, digest, Offers(k, b), a.random, NonceFrame(k, b, digest));
    SideCompletes(k, a, b, digest);
  }

  /** The other end's frame can be taken: its body is signed in the current world. */
  predicate Signed(w: World, b: Side, body: Body) {
    b.party.id in w && w[b.party.id].keys == b.party.keys && body in w[b.party.id].authored
  }

  lemma ExposePhase(k: Crypto, t: Trace, a: Side, digest: Bytes, other: Counterpart) returns (u: Trace)
    requires IsRun(k, t) && Enters(k, a, digest, other) && HeadersFit(a.x, digest)
    requires a.party.id in Now(t) && Now(t)[a.party.id] == a.party && AfterExpose(k, a.party, a.x, a.random).Ok?
    ensures IsRun(k, u) && Now(u) == Now(t)[a.party.id := AfterExpose(k, a.party, a.x, a.random).value]
    ensures Extends(a.party, AfterExpose(k, a.party, a.x, a.random).value)
    ensures u.steps == t.steps + By(a, ExposeEvents(a.party, a.x, a.random))
  {
    hide Replay, ExposeEvents, CanRun, SessionTyped, IsRun, TypedFor, FramesOf, Extends, Genuine;
    var es := ExposeEvents(a.party, a.x, a.random);
    OperationsTyped(k, a, digest, other, a.party, a.party, [], []);
    u := RunReplays(k, t, a.party.id, es);
  }

  function By(s: Side, es: seq<Event>): seq<(Bytes, Event)> {
    seq(|es|, j requires 0 <= j < |es| => (s.party.id, es[j]))
  }

  lemma AnswerPhase(k: Crypto, t: Trace, a: Side, b: Side, digest: Bytes) returns (u: Trace)
    requires IsRun(k, t) && Enters(k, a, digest, Offers(k, b)) && Enters(k, b, digest, Offers(k, a))
    requires Opposite(k, b.x, a.x, digest) && a.party.id in Now(t)
    requires AfterExpose(k, a.party, a.x, a.random) == Ok(Now(t)[a.party.id])
    requires Now(t)[a.party.id].keys == a.party.keys
    requires AfterAnswer(k, a.party, a.x, a.random, NonceFrame(k, b, digest)).Ok?
    requires Signed(Now(t), b, BodyFor(b.x, digest, NONCE, NonceBy(k, b)))
    ensures IsRun(k, u)
    ensures Now(u) == Now(t)[a.party.id := AfterAnswer(k, a.party, a.x, a.random, NonceFrame(k, b, digest)).value]
    ensures Extends(Now(t)[a.party.id], Now(u)[a.party.id])
    ensures u.steps == t.steps + By(a, AnswerEvents(Now(t)[a.party.id], a.x, NonceFrame(k, b, digest), a.random))
  {
    hide Replay, AnswerEvents, OnTrack, SessionTyped, IsRun, TypedFor, FramesOf, Extends, Genuine, Opposite, BodyFor, FrameBytes,
         Unsigned, MessagePreimage, XOnly;
    var m := NonceFrame(k, b, digest);
    var es := AnswerEvents(Now(t)[a.party.id], a.x, m, a.random);
    EndsFit(k, b.x, a.x, digest);
    OperationsTyped(k, a, digest, Offers(k, b), a.party, Now(t)[a.party.id], m, m);
    var body := BodyFor(b.x, digest, NONCE, NonceBy(k, b));
    FrameGenuine(k, Now(t), a, b, digest, body, b.sign(Unsigned(body)));
    forall j | 0 <= j < |es|
      ensures FramesGenuine(k, Now(t), es[j])
    {
      AnswerContext(Now(t)[a.party.id], a.x, m, a.random, es[j]);
      AllGenuine(k, Now(t), a.x, es[j], {m});
    }
    u := RunReplays(k, t, a.party.id, es);
  }

  lemma EndsFit(k: Crypto, x: SigningContext, y: SigningContext, digest: Bytes)
    requires Opposite(k, x, y, digest)
    ensures HeadersFit(x, digest) && HeadersFit(y, digest)
  {
  }

  lemma AnswerContext(p: Party, x: SigningContext, m: Bytes, random: Randomness, e: Event)
    requires e in AnswerEvents(p, x, m, random)
    ensures e.x == x
  {
  }

  lemma FinishContext(x: SigningContext, m: Bytes, n: Bytes, e: Event)
    requires e in FinishEvents(x, m, n)
    ensures e.x == x && FramesOf(e) <= {m, n}
  {
  }

  lemma FinishGenuine(k: Crypto, w: World, a: Side, b: Side, digest: Bytes, tr: Bytes)
    requires Enters(k, b, digest, Offers(k, a)) && Opposite(k, b.x, a.x, digest)
    requires Signed(w, b, BodyFor(b.x, digest, NONCE, NonceBy(k, b)))
    requires Signed(w, b, BodyFor(b.x, digest, PARTIAL, tr + Offers(k, b).partial))
    ensures forall e :: e in FinishEvents(a.x, NonceFrame(k, b, digest), PartialFrame(k, b, digest, tr)) ==> FramesGenuine(k, w, e)
  {
    hide OnTrack, SessionTyped, FramesGenuine, Genuine, Opposite, BodyFor, FrameBytes, Unsigned, MessagePreimage, XOnly,
         FinishEvents, Offers, NonceBy, FramesOf;
    var m, n := NonceFrame(k, b, digest), PartialFrame(k, b, digest, tr);
    var body := BodyFor(b.x, digest, NONCE, NonceBy(k, b));
    FrameGenuine(k, w, a, b, digest, body, b.sign(Unsigned(body)));
    var other := BodyFor(b.x, digest, PARTIAL, tr + Offers(k, b).partial);
    FrameGenuine(k, w, a, b, digest, other, b.sign(Unsigned(other)));
    forall e | e in FinishEvents(a.x, m, n)
      ensures FramesGenuine(k, w, e)
    {
      FinishContext(a.x, m, n, e);
      AllGenuine(k, w, a.x, e, {m, n});
    }
  }

  lemma FinishPhase(k: Crypto, t: Trace, a: Side, b: Side, digest: Bytes) returns (u: Trace)
    requires IsRun(k, t) && Enters(k, a, digest, Offers(k, b)) && Enters(k, b, digest, Offers(k, a))
    requires Opposite(k, b.x, a.x, digest) && a.party.id in Now(t)
    requires AfterAnswer(k, a.party, a.x, a.random, NonceFrame(k, b, digest)) == Ok(Now(t)[a.party.id])
    requires Now(t)[a.party.id].keys == a.party.keys
    requires var tr := Joint(k, a, b, digest);
      && Round(k, a.party, a.x, a.random, NonceFrame(k, b, digest), PartialFrame(k, b, digest, tr)).Ok?
      && Signed(Now(t), b, BodyFor(b.x, digest, NONCE, NonceBy(k, b)))
      && Signed(Now(t), b, BodyFor(b.x, digest, PARTIAL, tr + Offers(k, b).partial))
    ensures IsRun(k, u)
    ensures var m, n := NonceFrame(k, b, digest), PartialFrame(k, b, digest, Joint(k, a, b, digest));
      && Now(u) == Now(t)[a.party.id := Round(k, a.party, a.x, a.random, m, n).value]
      && u.steps == t.steps + By(a, FinishEvents(a.x, m, n))
    ensures Extends(Now(t)[a.party.id], Now(u)[a.party.id])
  {
    hide Replay, CanRun, SessionTyped, IsRun, TypedFor, FramesOf, Extends, FramesGenuine, Opposite, BodyFor, NonceFrame,
         PartialFrame, Joint, FinishEvents, AfterAnswer, Offers, NonceBy, Signed, HeadersFit;
    var m, n := NonceFrame(k, b, digest), PartialFrame(k, b, digest, Joint(k, a, b, digest));
    EndsFit(k, b.x, a.x, digest);
    OperationsTyped(k, a, digest, Offers(k, b), a.party, a.party, m, n);
    FinishGenuine(k, Now(t), a, b, digest, Joint(k, a, b, digest));
    u := RunReplays(k, t, a.party.id, FinishEvents(a.x, m, n));
  }

  /**
   The two logs of an undisturbed round, interleaved operation by operation, are a run of the protocol
   that ends with both participants finished on the same session.
   */
  lemma UndisturbedRun(k: Crypto, a: Side, b: Side, digest: Bytes) returns (t: Trace, c: Completion, d: Completion)
    requires Wide(k.hash) && Enters(k, a, digest, Offers(k, b)) && Enters(k, b, digest, Offers(k, a)) && a.party.id != b.party.id
    requires Opposite(k, a.x, b.x, digest) && Opposite(k, b.x, a.x, digest)
    ensures IsRun(k, t) && a.party.id in Now(t) && b.party.id in Now(t)
    ensures c in Now(t)[a.party.id].completed && d in Now(t)[b.party.id].completed && c.digest == d.digest == digest
    ensures var tr := Joint(k, a, b, digest);
      var ma, na, mb, nb :=
        NonceFrame(k, a, digest), PartialFrame(k, a, digest, tr), NonceFrame(k, b, digest), PartialFrame(k, b, digest, tr);
      && AfterExpose(k, a.party, a.x, a.random).Ok? && AfterExpose(k, b.party, b.x, b.random).Ok?
      && t.steps == By(a, ExposeEvents(a.party, a.x, a.random)) + By(b, ExposeEvents(b.party, b.x, b.random))
         + By(a, AnswerEvents(AfterExpose(k, a.party, a.x, a.random).value, a.x, mb, a.random))
         + By(b, AnswerEvents(AfterExpose(k, b.party, b.x, b.random).value, b.x, ma, b.random))
         + By(a, FinishEvents(a.x, mb, nb)) + By(b, FinishEvents(b.x, ma, na))
  {
    hide IsRun, CanRun, Opposite, SessionTyped, AfterExpose, AfterAnswer, Round, ExposeEvents, AnswerEvents, FinishEvents, By,
         NonceFrame, PartialFrame, BodyFor, Offers, NonceBy, HeadersFit, Framed, BodyOf, Transcript, Joint;
    EndsFit(k, a.x, b.x, digest);
    JointSymmetric(k, a, b, digest);
    Stages(k, a, b, digest);
    Stages(k, b, a, digest);
    t := Beginning(a, b);
    BeginningRuns(k, a, b, digest, Offers(k, a), Offers(k, b));
    t := ExposePhase(k, t, a, digest, Offers(k, b));
    t := ExposePhase(k, t, b, digest, Offers(k, a));
    t := AnswerPhase(k, t, a, b, digest);
    t := AnswerPhase(k, t, b, a, digest);
    t := FinishPhase(k, t, a, b, digest);
    t := FinishPhase(k, t, b, a, digest);
    var tr := Joint(k, a, b, digest);
    c := Finished(k, a.x, digest, Offers(k, b), NonceBy(k, a), NonceFrame(k, b, digest), PartialFrame(k, b, digest, tr));
    d := Finished(k, b.x, digest, Offers(k, a), NonceBy(k, b), NonceFrame(k, a, digest), PartialFrame(k, a, digest, tr));
  }
}
