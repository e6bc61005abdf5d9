/**
 The authenticated frames two claim participants exchange
 (crates/btc-actuator/src/participant_wire.rs).
 */
module ClaimWire {
  import opened Wire
  import opened ActuationScope
  import opened ClaimSession

  const MAGIC := "DOMBTCM3"
  const MESSAGE_DOMAIN := "DOM-INTEROP/BTC-ACTUATOR/PARTICIPANT-MESSAGE/V3\0"
  const HEADER := 140
  const NONCE: Byte := 1
  const PARTIAL: Byte := 2
  const MAX_MESSAGE := HEADER + 66 + 64

  function PayloadSize(kind: Byte): nat {
    if kind == NONCE then 66 else 64
  }

  /** What a participant signs: its identity, the session, the authorization it acts under, and the payload. */
  datatype Body = Body(kind: Byte, role: Role, session: Bytes, participant: Bytes, policy: Bytes, anchors: Bytes,
    payload: Bytes)

  predicate BodyFits(b: Body) {
    && (b.kind == NONCE || b.kind == PARTIAL)
    && |b.session| == 32 && |b.participant| == 32 && |b.policy| == 32 && |b.anchors| == 32
    && |b.payload| == PayloadSize(b.kind)
  }

  predicate BodyNonZero(b: Body) {
    b.session != ZERO32 && b.participant != ZERO32 && b.policy != ZERO32 && b.anchors != ZERO32
  }

  function Unsigned(b: Body): Bytes {
    ToAscii(MAGIC) + (ToBE(3, 2) + ([b.kind] + ([RoleTag(b.role)] + (b.session + (b.participant + (b.policy
      + (b.anchors + b.payload)))))))
  }

  function FrameBytes(b: Body, signature: Bytes): Bytes {
    Unsigned(b) + signature
  }

  // ===== Framing

  predicate Framed(m: Bytes) {
    && HEADER + 64 <= |m| <= MAX_MESSAGE
    && m[..8] == ToAscii(MAGIC) && m[8..10] == ToBE(3, 2)
    && (m[11] == 1 || m[11] == 2) && (m[10] == NONCE || m[10] == PARTIAL)
    && |m| == HEADER + PayloadSize(m[10]) + 64
    && m[12..44] != ZERO32 && m[44..76] != ZERO32 && m[76..108] != ZERO32 && m[108..140] != ZERO32
  }

  function BodyOf(m: Bytes): Body
    requires Framed(m)
  {
    Body(m[10], if m[11] == 1 then Maker else Taker, m[12..44], m[44..76], m[76..108], m[108..140], m[HEADER..|m| - 64])
  }

  function SignatureOf(m: Bytes): Bytes
    requires Framed(m)
  {
    m[|m| - 64..]
  }

  /** Framing accepts exactly the encodings of well-sized bodies with non-zero header fields. */
  lemma FramedExact(m: Bytes, b: Body, signature: Bytes)
    ensures (Framed(m) && BodyOf(m) == b && SignatureOf(m) == signature)
       <==> (BodyFits(b) && BodyNonZero(b) && |signature| == 64 && m == FrameBytes(b, signature))
  {
    if Framed(m) && BodyOf(m) == b && SignatureOf(m) == signature {
      Reassembled(m);
    } else if BodyFits(b) && BodyNonZero(b) && |signature| == 64 && m == FrameBytes(b, signature) {
      Disassembled(b, signature);
    }
  }

  lemma Reassembled(m: Bytes)
    requires Framed(m)
    ensures BodyFits(BodyOf(m)) && BodyNonZero(BodyOf(m)) && m == FrameBytes(BodyOf(m), SignatureOf(m))
    ensures Unsigned(BodyOf(m)) == m[..|m| - 64]
  {
    hide ToAscii, ToBE;
    var end := |m| - 64;
    SplitAt(m, 0, 8, end);
    SplitAt(m, 8, 10, end);
    SplitAt(m, 10, 11, end);
    SplitAt(m, 11, 12, end);
    SplitAt(m, 12, 44, end);
    SplitAt(m, 44, 76, end);
    SplitAt(m, 76, 108, end);
    SplitAt(m, 108, 140, end);
    assert m[10..11] == [m[10]] && m[11..12] == [m[11]];
    assert m == m[..end] + m[end..];
  }

  lemma SplitAt(m: Bytes, i: nat, j: nat, end: nat)
    requires i <= j <= end <= |m|
    ensures m[i..end] == m[i..j] + m[j..end]
  {
  }

  /** Where each field of a body sits, whatever follows it. */
  lemma Slices(b: Body, tail: Bytes)
    requires BodyFits(b)
    ensures var m := Unsigned(b) + tail;
      && |m| == HEADER + |b.payload| + |tail|
      && m[..8] == ToAscii(MAGIC) && m[8..10] == ToBE(3, 2) && m[10] == b.kind && m[11] == RoleTag(b.role)
      && m[12..44] == b.session && m[44..76] == b.participant && m[76..108] == b.policy && m[108..140] == b.anchors
      && m[140..140 + |b.payload|] == b.payload && m[140 + |b.payload|..] == tail
  {
    hide ToAscii, ToBE;
    var m := Unsigned(b) + tail;
    assert |Unsigned(b)| == HEADER + |b.payload|;
    assert m[..8] == ToAscii(MAGIC);
    assert m[8..10] == ToBE(3, 2);
    assert m[10] == b.kind && m[11] == RoleTag(b.role);
    assert m[12..44] == b.session;
    assert m[44..76] == b.participant;
    assert m[76..108] == b.policy;
    assert m[108..140] == b.anchors;
    assert m[140..140 + |b.payload|] == b.payload;
    assert m[140 + |b.payload|..] == tail;
  }

  lemma Disassembled(b: Body, signature: Bytes)
    requires BodyFits(b) && BodyNonZero(b) && |signature| == 64
    ensures var m := FrameBytes(b, signature); Framed(m) && BodyOf(m) == b && SignatureOf(m) == signature
  {
    hide ToAscii, ToBE, Unsigned;
    Slices(b, signature);
  }

  /** The signed bytes fix the whole body. */
  lemma UnsignedInjective(a: Body, b: Body)
    requires BodyFits(a) && BodyFits(b) && Unsigned(a) == Unsigned(b)
    ensures a == b
  {
    hide ToAscii, ToBE, Unsigned;
    Slices(a, []);
    Slices(b, []);
  }

  /** Grows the frame field by field, has it signed, and checks its own framing. */
  method SignFrame(b: Body, sign: Bytes -> Bytes) returns (r: Result<Bytes, ClaimError>)
    ensures var m := FrameBytes(b, sign(Unsigned(b))); r == if Framed(m) then Ok(m) else Err(ClaimAuthorityMismatch)
    ensures BodyFits(b) ==> (r.Ok? <==> BodyNonZero(b) && |sign(Unsigned(b))| == 64)
  {
    hide ToAscii, ToBE;
    var w := new Buffer();
    ghost var t8 := b.anchors + b.payload;
    ghost var t7 := b.policy + t8;
    ghost var t6 := b.participant + t7;
    ghost var t5 := b.session + t6;
    ghost var t4 := [RoleTag(b.role)] + t5;
    ghost var t3 := [b.kind] + t4;
    w.Extend(ToAscii(MAGIC), ToBE(3, 2) + t3);
    w.Extend(ToBE(3, 2), t3);
    w.Extend([b.kind], t4);
    w.Extend([RoleTag(b.role)], t5);
    w.Extend(b.session, t6);
    w.Extend(b.participant, t7);
    w.Extend(b.policy, t8);
    w.Extend(b.anchors, b.payload);
    w.Extend(b.payload, []);
    assert w.out == w.out + [] == Unsigned(b) by { assert b.payload + [] == b.payload; }
    var signature := sign(w.out);
    var m := w.out + signature;
    if BodyFits(b) {
      FramedIff(b, signature);
    }
    r := if Framed(m) then Ok(m) else Err(ClaimAuthorityMismatch);
  }

  lemma FramedIff(b: Body, signature: Bytes)
    requires BodyFits(b)
    ensures Framed(FrameBytes(b, signature)) <==> BodyNonZero(b) && |signature| == 64
  {
    hide ToAscii, ToBE, Unsigned;
    Slices(b, signature);
  }

  // ===== Authenticating the peer

  datatype ClaimError =
    | ClaimAuthorityMismatch | ClaimCryptography | IdempotencyConflict | ReconciliationRequired | StaleFencing
    | ClaimNonceCustody | InvalidState | EffectNotFound

  /** The session, policy and anchors a frame must carry for one signing context. */
  datatype MessageScope = MessageScope(session: Bytes, policy: Bytes, anchors: Bytes)

  function MessagePreimage(unsigned: Bytes): Bytes {
    ToAscii(MESSAGE_DOMAIN) + unsigned
  }

  function XOnly(key: Bytes): Bytes {
    if key == [] then [] else key[1..]
  }

  function VerifyPeer(k: Crypto, scope: MessageScope, m: Bytes, kind: Byte, role: Role, roster: Roster)
    : Result<(), ClaimError>
    requires Framed(m)
  {
    var b := BodyOf(m);
    var peer := Peer(role, roster);
    if b.kind != kind || b.role == role || b.session != scope.session || b.participant != peer.id
       || b.policy != scope.policy || b.anchors != scope.anchors then Err(ClaimAuthorityMismatch)
    else if !k.verify(XOnly(peer.key), k.hash(MessagePreimage(m[..|m| - 64])), SignatureOf(m)) then Err(ClaimCryptography)
    else Ok(())
  }

  /** A verified frame is the peer's: its body is fixed up to the payload, and the peer's key signed those bytes. */
  lemma VerifiedBody(k: Crypto, scope: MessageScope, m: Bytes, kind: Byte, role: Role, roster: Roster)
    requires Framed(m) && VerifyPeer(k, scope, m, kind, role, roster).Ok?
    ensures var b := BodyOf(m);
      && BodyFits(b)
      && b == Body(kind, if role == Maker then Taker else Maker, scope.session, Peer(role, roster).id,
           scope.policy, scope.anchors, b.payload)
      && m == FrameBytes(b, SignatureOf(m))
      && k.verify(XOnly(Peer(role, roster).key), k.hash(MessagePreimage(Unsigned(b))), SignatureOf(m))
  {
    Reassembled(m);
  }
}
