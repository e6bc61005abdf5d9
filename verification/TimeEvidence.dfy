/**
 Signed route-time evidence: its envelope, and the threshold check over it
 (scripts/time_evidence_oracle.py).
 */
module TimeEvidence {
  import opened Wire

  const MAX_BYTES := 16_384
  const BODY_SIZE := 880
  const EVIDENCE_DOMAIN := "DOM-INTEROP/ROUTE-TIME-EVIDENCE/V2\0"
  const ZERO64: Bytes := Zeros(64)

  datatype Signature = Signature(signer: nat, bytes: Bytes)
  datatype Evidence = Evidence(body: Bytes, signatures: seq<Signature>)

  function EnvelopeHeader(): Bytes {
    ToAscii("DOMRTSE2\0") + [2, 0, 0]
  }

  function BodyHeader(): Bytes {
    ToAscii("DOMRTEV2\0") + [2, 0, 0]
  }

  // ===== The evidence body

  function Policy(body: Bytes): Bytes
    requires |body| == BODY_SIZE
  {
    body[12..44]
  }

  function Scope(body: Bytes): Bytes
    requires |body| == BODY_SIZE
  {
    body[44..76]
  }

  function Sequence(body: Bytes): nat
    requires |body| == BODY_SIZE
  {
    FromBE(body[76..84])
  }

  function Observed(body: Bytes): nat
    requires |body| == BODY_SIZE
  {
    FromBE(body[84..92])
  }

  function Expiry(body: Bytes): nat
    requires |body| == BODY_SIZE
  {
    FromBE(body[92..100])
  }

  predicate CheckpointValid(body: Bytes, i: nat)
    requires |body| == BODY_SIZE && i < 3
  {
    var at := 100 + 260 * i;
    body[at] == i + 1 && 1 <= body[at + 1] <= 5 && body[at + 2] == 0 && body[at + 3] == 0
  }

  predicate BodyValid(body: Bytes) {
    && |body| == BODY_SIZE && body[..12] == BodyHeader()
    && Sequence(body) > 0 && 0 < Observed(body) < Expiry(body)
    && Policy(body) != ZERO32 && Scope(body) != ZERO32
    && CheckpointValid(body, 0) && CheckpointValid(body, 1) && CheckpointValid(body, 2)
  }

  // ===== The signature vector

  predicate SignaturesValid(sigs: seq<Signature>) {
    && (forall i :: 0 <= i < |sigs| ==>
         sigs[i].signer < Pow256(2) && |sigs[i].bytes| == 64 && sigs[i].bytes != ZERO64)
    && (forall i, j :: 0 <= i < j < |sigs| ==> sigs[i].signer < sigs[j].signer)
  }

  function PutSignatures(sigs: seq<Signature>): Bytes {
    if sigs == [] then [] else ToBE(sigs[0].signer, 2) + (sigs[0].bytes + PutSignatures(sigs[1..]))
  }

  /** Reads `n` more signatures after those in `got`, each by a later signer. */
  function GetSignatures(n: nat, got: seq<Signature>, s: Bytes): Parsed<seq<Signature>, ()> {
    if n == 0 then Good(got, s)
    else
      var (signer, s) :- TakeU(2, s, ());
      var (bytes, s) :- Take(64, s, ());
      if bytes == ZERO64 || (got != [] && signer <= got[|got| - 1].signer) then Bad(())
      else GetSignatures(n - 1, got + [Signature(signer, bytes)], s)
  }

  lemma {:induction false} SignaturesInverse(got: seq<Signature>, sigs: seq<Signature>)
    requires SignaturesValid(got + sigs)
    ensures GetSignatures(|sigs|, got, PutSignatures(sigs)) == Good(got + sigs, [])
    decreases |sigs|
  {
    hide Take, TakeU, ToBE, Pow256;
    ReadsBack<()>();
    if sigs == [] {
      assert got + sigs == got;
    } else {
      assert (got + sigs)[|got|] == sigs[0];
      if got != [] {
        assert (got + sigs)[|got| - 1] == got[|got| - 1];
      }
      assert got + [sigs[0]] + sigs[1..] == got + sigs;
      SignaturesInverse(got + [sigs[0]], sigs[1..]);
    }
  }

  lemma {:induction false} SignaturesSound(n: nat, got: seq<Signature>, s: Bytes) returns (tail: seq<Signature>)
    requires SignaturesValid(got) && GetSignatures(n, got, s).Good? && GetSignatures(n, got, s).rest == []
    ensures |tail| == n && GetSignatures(n, got, s).value == got + tail
    ensures SignaturesValid(got + tail) && s == PutSignatures(tail)
    decreases n
  {
    hide Take, TakeU, ToBE, Pow256;
    WritesBack<()>();
    if n == 0 {
      assert got + [] == got;
      return [];
    }
    var s1 := TakeU(2, s, ());
    var s2 := Take(64, s1.rest, ());
    var first := Signature(s1.value, s2.value);
    Grows(got, first);
    var rest := SignaturesSound(n - 1, got + [first], s2.rest);
    assert got + [first] + rest == got + ([first] + rest);
    assert ([first] + rest)[1..] == rest;
    return [first] + rest;
  }

  lemma Grows(got: seq<Signature>, x: Signature)
    requires SignaturesValid(got) && x.signer < Pow256(2) && |x.bytes| == 64 && x.bytes != ZERO64
    requires got != [] ==> got[|got| - 1].signer < x.signer
    ensures SignaturesValid(got + [x])
  {
    hide Pow256;
  }

  // ===== The envelope

  predicate EvidenceValid(e: Evidence) {
    BodyValid(e.body) && 1 <= |e.signatures| <= 16 && SignaturesValid(e.signatures)
  }

  function Encode(e: Evidence): Bytes {
    EnvelopeHeader() + (ToBE(BODY_SIZE, 4) + (e.body + (ToBE(|e.signatures|, 2) + PutSignatures(e.signatures))))
  }

  function Decode(raw: Bytes): Option<Evidence> {
    if !(18 <= |raw| <= MAX_BYTES) || raw[..12] != EnvelopeHeader() || FromBE(raw[12..16]) != BODY_SIZE
       || |raw| < 18 + BODY_SIZE then None
    else
      var body, count := raw[16..896], FromBE(raw[896..898]);
      if body[..12] != BodyHeader() || !(1 <= count <= 16) || |raw| != 898 + count * 66 || !BodyValid(body) then None
      else
        match GetSignatures(count, [], raw[898..])
        case Bad(_) => None
        case Good(sigs, rest) => if rest == [] then Some(Evidence(body, sigs)) else None
  }

  lemma {:induction false} SignaturesSize(sigs: seq<Signature>)
    requires forall i :: 0 <= i < |sigs| ==> |sigs[i].bytes| == 64
    ensures |PutSignatures(sigs)| == 66 * |sigs|
  {
    if sigs != [] {
      SignaturesSize(sigs[1..]);
    }
  }

  /** Where the parts of an envelope lie. */
  lemma EncodedParts(e: Evidence)
    requires |e.body| == BODY_SIZE
    ensures var raw := Encode(e);
      && |raw| == 898 + |PutSignatures(e.signatures)| && raw[..12] == EnvelopeHeader() && raw[12..16] == ToBE(BODY_SIZE, 4)
      && raw[16..896] == e.body && raw[896..898] == ToBE(|e.signatures|, 2) && raw[898..] == PutSignatures(e.signatures)
  {
    hide ToBE, ToAscii;
    var raw := Encode(e);
    assert raw[..12] == EnvelopeHeader();
    assert raw[12..16] == ToBE(BODY_SIZE, 4);
    assert raw[16..896] == e.body;
    assert raw[896..898] == ToBE(|e.signatures|, 2);
    assert raw[898..] == PutSignatures(e.signatures);
  }

  /** The envelope decoder accepts exactly the encodings of valid evidence. */
  lemma DecodeExact(raw: Bytes, e: Evidence)
    ensures Decode(raw) == Some(e) <==> EvidenceValid(e) && raw == Encode(e)
  {
    hide BodyValid, SignaturesValid, GetSignatures, PutSignatures, Encode, ToBE, FromBE, EnvelopeHeader, BodyHeader, Pow256;
    Pow256Values();
    if Decode(raw) == Some(e) {
      var count := |e.signatures|;
      NoSignatures();
      var tail := SignaturesSound(FromBE(raw[896..898]), [], raw[898..]);
      assert [] + tail == tail == e.signatures;
      Reassembled(raw, e);
    } else if EvidenceValid(e) && raw == Encode(e) {
      BodySized(e.body);
      EncodedParts(e);
      ValidSized(e.signatures);
      SignaturesSize(e.signatures);
      ToBERoundTrip(BODY_SIZE, 4);
      ToBERoundTrip(|e.signatures|, 2);
      assert [] + e.signatures == e.signatures;
      SignaturesInverse([], e.signatures);
      assert false;
    }
  }

  lemma NoSignatures()
    ensures SignaturesValid([])
  {
  }

  lemma BodySized(body: Bytes)
    requires BodyValid(body)
    ensures |body| == BODY_SIZE && body[..12] == BodyHeader()
  {
  }

  lemma ValidSized(sigs: seq<Signature>)
    requires SignaturesValid(sigs)
    ensures forall i :: 0 <= i < |sigs| ==> |sigs[i].bytes| == 64
  {
  }

  lemma Reassembled(raw: Bytes, e: Evidence)
    requires |raw| >= 898 && raw[..12] == EnvelopeHeader() && FromBE(raw[12..16]) == BODY_SIZE && raw[16..896] == e.body
    requires FromBE(raw[896..898]) == |e.signatures| && raw[898..] == PutSignatures(e.signatures)
    ensures raw == Encode(e)
  {
    hide ToBE, FromBE, EnvelopeHeader, PutSignatures;
    FromBERoundTrip(raw[12..16]);
    FromBERoundTrip(raw[896..898]);
    assert raw == raw[..12] + (raw[12..16] + (raw[16..896] + (raw[896..898] + raw[898..])));
  }

  /** One signature read at the front is one read off the count. */
  lemma OneSignature(n: nat, got: seq<Signature>, s: Bytes)
    requires n > 0 && |s| >= 66
    ensures GetSignatures(n, got, s) ==
      if s[2..66] == ZERO64 || (got != [] && FromBE(s[..2]) <= got[|got| - 1].signer) then Bad(())
      else GetSignatures(n - 1, got + [Signature(FromBE(s[..2]), s[2..66])], s[66..])
  {
    hide FromBE;
    assert s[2..][..64] == s[2..66] && s[2..][64..] == s[66..];
  }

  /** Walks the signature vector and keeps each signature whose signer follows the previous one. */
  method DecodeEnvelope(raw: Bytes) returns (r: Option<Evidence>)
    ensures r == Decode(raw)
    ensures forall e :: r == Some(e) <==> EvidenceValid(e) && raw == Encode(e)
  {
    hide BodyValid, GetSignatures, Encode, EvidenceValid, FromBE, EnvelopeHeader, BodyHeader;
    forall e
      ensures Decode(raw) == Some(e) <==> EvidenceValid(e) && raw == Encode(e)
    {
      DecodeExact(raw, e);
    }
    if !(18 <= |raw| <= MAX_BYTES) || raw[..12] != EnvelopeHeader() || FromBE(raw[12..16]) != BODY_SIZE
       || |raw| < 18 + BODY_SIZE {
      return None;
    }
    var body, count := raw[16..896], FromBE(raw[896..898]);
    if body[..12] != BodyHeader() || !(1 <= count <= 16) || |raw| != 898 + count * 66 || !BodyValid(body) {
      return None;
    }
    var signatures: seq<Signature> := [];
    for i := 0 to count
      invariant GetSignatures(count, [], raw[898..]) == GetSignatures(count - i, signatures, raw[898 + 66 * i..])
    {
      var offset := 898 + 66 * i;
      OneSignature(count - i, signatures, raw[offset..]);
      assert raw[offset..][..2] == raw[offset..offset + 2] && raw[offset..][2..66] == raw[offset + 2..offset + 66];
      assert raw[offset..][66..] == raw[offset + 66..];
      var signer, bytes := FromBE(raw[offset..offset + 2]), raw[offset + 2..offset + 66];
      if bytes == ZERO64 || (signatures != [] && signer <= signatures[|signatures| - 1].signer) {
        return None;
      }
      signatures := signatures + [Signature(signer, bytes)];
    }
    NoMore(signatures, raw[898 + 66 * count..]);
    r := Some(Evidence(body, signatures));
  }

  lemma NoMore(got: seq<Signature>, s: Bytes)
    ensures GetSignatures(0, got, s) == Good(got, s)
  {
  }

  // ===== The threshold check

  datatype Pins = Pins(keys: seq<Bytes>, threshold: int, minimumSequence: int, policy: Bytes, scope: Bytes)

  /** The hash and the Schnorr check, kept abstract. */
  datatype Crypto = Crypto(hash: Bytes -> Bytes, schnorr: (Bytes, Bytes, Bytes) -> bool)

  predicate PinsValid(p: Pins) {
    && 1 <= |p.keys| <= 16 && (forall i, j :: 0 <= i < j < |p.keys| ==> p.keys[i] != p.keys[j])
    && 1 <= p.threshold <= |p.keys| && 1 <= p.minimumSequence < Pow256(8)
  }

  function EvidenceDigest(k: Crypto, body: Bytes): Bytes {
    k.hash(ToAscii(EVIDENCE_DOMAIN) + body)
  }

  predicate SignatureGood(k: Crypto, p: Pins, digest: Bytes, s: Signature) {
    s.signer < |p.keys| && k.schnorr(p.keys[s.signer], digest, s.bytes)
  }

  predicate Verified(k: Crypto, raw: Bytes, p: Pins, now: int) {
    && PinsValid(p) && 0 < now < Pow256(8) && Decode(raw).Some?
    && var e := Decode(raw).value;
    && |e.body| == BODY_SIZE
    && Policy(e.body) == p.policy && Scope(e.body) == p.scope
    && Sequence(e.body) >= p.minimumSequence && Observed(e.body) <= now < Expiry(e.body)
    && |e.signatures| >= p.threshold
    && forall i :: 0 <= i < |e.signatures| ==> SignatureGood(k, p, EvidenceDigest(k, e.body), e.signatures[i])
  }

  function SigningKeys(p: Pins, sigs: seq<Signature>): set<Bytes> {
    set i | 0 <= i < |sigs| && sigs[i].signer < |p.keys| :: p.keys[sigs[i].signer]
  }

  lemma {:induction false} KeysDistinct(p: Pins, sigs: seq<Signature>)
    requires PinsValid(p) && SignaturesValid(sigs) && forall i :: 0 <= i < |sigs| ==> sigs[i].signer < |p.keys|
    ensures |SigningKeys(p, sigs)| == |sigs|
  {
    hide Pow256;
    if sigs != [] {
      var rest, last := sigs[..|sigs| - 1], sigs[|sigs| - 1];
      assert SignaturesValid(rest);
      KeysDistinct(p, rest);
      assert forall i :: 0 <= i < |rest| ==> rest[i] == sigs[i];
      assert SigningKeys(p, sigs) == SigningKeys(p, rest) + {p.keys[last.signer]};
      assert p.keys[last.signer] !in SigningKeys(p, rest);
    }
  }

  /** Accepted evidence is signed over its whole body by at least the threshold of distinct authority keys. */
  lemma ThresholdOfDistinctKeys(k: Crypto, raw: Bytes, p: Pins, now: int)
    requires Verified(k, raw, p, now)
    ensures var e := Decode(raw).value; var signing := SigningKeys(p, e.signatures);
      && |signing| >= p.threshold
      && (forall key :: key in signing ==>
           && key in p.keys
           && exists i :: 0 <= i < |e.signatures| && k.schnorr(key, EvidenceDigest(k, e.body), e.signatures[i].bytes))
  {
    hide Decode, EvidenceDigest, Pow256, BodyValid;
    var e := Decode(raw).value;
    DecodeExact(raw, e);
    assert forall i :: 0 <= i < |e.signatures| ==> SignatureGood(k, p, EvidenceDigest(k, e.body), e.signatures[i]);
    KeysDistinct(p, e.signatures);
  }

  // ===== Where everything stands

  predicate SignatureSized(x: Signature) {
    |x.bytes| == 64 && x.signer < Pow256(2)
  }

  lemma FirstSignature(sigs: seq<Signature>)
    requires sigs != [] && SignatureSized(sigs[0])
    ensures var s := PutSignatures(sigs);
      |s| >= 66 && FromBE(s[..2]) == sigs[0].signer && s[2..66] == sigs[0].bytes && s[66..] == PutSignatures(sigs[1..])
  {
    hide ToBE, FromBE, Pow256;
    var s, rest := PutSignatures(sigs), PutSignatures(sigs[1..]);
    ToBERoundTrip(sigs[0].signer, 2);
    Peel(s, 0, ToBE(sigs[0].signer, 2), sigs[0].bytes + rest);
    Peel(s, 2, sigs[0].bytes, rest);
  }

  lemma {:induction false} SignatureLayout(sigs: seq<Signature>, i: nat, at: nat)
    requires (forall j :: 0 <= j < |sigs| ==> SignatureSized(sigs[j])) && i < |sigs| && at == 66 * i
    ensures var s := PutSignatures(sigs);
      |s| >= at + 66 && FromBE(s[at..at + 2]) == sigs[i].signer && s[at + 2..at + 66] == sigs[i].bytes
  {
    hide PutSignatures, FromBE, SignatureSized;
    FirstSignature(sigs);
    if i > 0 {
      SignatureLayout(sigs[1..], i - 1, at - 66);
      var s := PutSignatures(sigs);
      assert s[66..|s|] == s[66..];
      Within(s, 66, |s|, at - 66, at - 64);
      Within(s, 66, |s|, at - 64, at);
    }
  }

  /** Accepted envelopes: header, body size, body, and the signatures with their signers. */
  lemma EnvelopeLayout(raw: Bytes, e: Evidence)
    requires Decode(raw) == Some(e)
    ensures |raw| == 898 + 66 * |e.signatures| && raw[..12] == ToAscii("DOMRTSE2\0") + [2, 0, 0] && FromBE(raw[12..16]) == 880
    ensures raw[16..896] == e.body && raw[16..28] == ToAscii("DOMRTEV2\0") + [2, 0, 0] && FromBE(raw[896..898]) == |e.signatures|
    ensures forall i :: 0 <= i < |e.signatures| ==>
      && FromBE(raw[898 + 66 * i..900 + 66 * i]) == e.signatures[i].signer
      && raw[900 + 66 * i..964 + 66 * i] == e.signatures[i].bytes
  {
    hide ToBE, FromBE, PutSignatures, SignaturesValid, Pow256, GetSignatures;
    DecodeExact(raw, e);
    EncodedParts(e);
    HeaderOfBody(e.body);
    assert raw[16..28] == e.body[..12];
    ValidSized(e.signatures);
    SignaturesSize(e.signatures);
    Pow256Values();
    ToBERoundTrip(880, 4);
    ToBERoundTrip(|e.signatures|, 2);
    forall i | 0 <= i < |e.signatures|
      ensures FromBE(raw[898 + 66 * i..900 + 66 * i]) == e.signatures[i].signer
      ensures raw[900 + 66 * i..964 + 66 * i] == e.signatures[i].bytes
    {
      AllSized(e.signatures);
      SignatureLayout(e.signatures, i, 66 * i);
      assert raw[898..|raw|] == PutSignatures(e.signatures);
      Within(raw, 898, |raw|, 66 * i, 66 * i + 2);
      Within(raw, 898, |raw|, 66 * i + 2, 66 * i + 66);
    }
  }

  lemma AllSized(sigs: seq<Signature>)
    requires SignaturesValid(sigs)
    ensures forall j :: 0 <= j < |sigs| ==> SignatureSized(sigs[j])
  {
  }

  lemma HeaderOfBody(body: Bytes)
    requires BodyValid(body)
    ensures |body| == 880 && body[..12] == ToAscii("DOMRTEV2\0") + [2, 0, 0]
  {
  }

  /** What accepted evidence says about itself, byte by byte: its policy, scope and sequence meet the pins, and the clock is in its window. */
  predicate Timely(raw: Bytes, p: Pins, now: int) {
    && |raw| >= 898 && raw[28..60] == p.policy && raw[60..92] == p.scope && FromBE(raw[92..100]) >= p.minimumSequence >= 1
    && FromBE(raw[100..108]) <= now < FromBE(raw[108..116])
  }

  lemma VerifiedTimely(k: Crypto, raw: Bytes, p: Pins, now: int)
    requires Verified(k, raw, p, now)
    ensures Timely(raw, p, now)
  {
    hide Decode, FromBE, SignatureGood, EvidenceDigest;
    var e := Decode(raw).value;
    EnvelopeLayout(raw, e);
    Within(raw, 16, 896, 12, 44);
    Within(raw, 16, 896, 44, 76);
    Within(raw, 16, 896, 76, 84);
    Within(raw, 16, 896, 84, 92);
    Within(raw, 16, 896, 92, 100);
  }

  /** What every accepted record holds: a positive sequence, an open window, a named policy and scope, and three checkpoints in order. */
  lemma AcceptedBody(raw: Bytes, e: Evidence)
    requires Decode(raw) == Some(e)
    ensures |raw| >= 898 && FromBE(raw[92..100]) > 0 && 0 < FromBE(raw[100..108]) < FromBE(raw[108..116])
    ensures raw[28..60] != ZERO32 && raw[60..92] != ZERO32
    ensures raw[116] == 1 && 1 <= raw[117] <= 5 && raw[118] == raw[119] == 0
    ensures raw[376] == 2 && 1 <= raw[377] <= 5 && raw[378] == raw[379] == 0
    ensures raw[636] == 3 && 1 <= raw[637] <= 5 && raw[638] == raw[639] == 0
  {
    hide Decode, FromBE, BodyHeader;
    EnvelopeLayout(raw, e);
    DecodeExact(raw, e);
    Within(raw, 16, 896, 12, 44);
    Within(raw, 16, 896, 44, 76);
    Within(raw, 16, 896, 76, 84);
    Within(raw, 16, 896, 84, 92);
    Within(raw, 16, 896, 92, 100);
    assert forall i :: 0 <= i < 880 ==> e.body[i] == raw[16 + i];
    assert CheckpointValid(e.body, 0) && CheckpointValid(e.body, 1) && CheckpointValid(e.body, 2);
    assert e.body[100] == raw[116] && e.body[360] == raw[376] && e.body[620] == raw[636];
  }
}
