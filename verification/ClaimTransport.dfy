/**
 The framed duplex stream under the claim driver: bounded reads and writes in
 any fragments, and a stream that is never used again after an error
 (crates/btc-actuator/src/claim_driver.rs).
 */
module ClaimTransport {
  import opened Wire
  import opened ClaimWire
  import opened ClaimActuator

  const ENVELOPE_MAGIC := "DOMBTCX6"

  datatype Phase = Nonce | Partial

  function PhaseTag(p: Phase): Byte {
    if p == Nonce then NONCE else PARTIAL
  }

  function FrameSize(p: Phase): nat {
    if p == Nonce then 270 else 268
  }

  function Header(p: Phase, size: nat): Bytes {
    ToAscii(ENVELOPE_MAGIC) + ([PhaseTag(p), 0] + ToBE(size, 2))
  }

  function Envelope(p: Phase, m: Bytes): Bytes {
    Header(p, |m|) + m
  }

  /** Magic, phase, a zero byte, the size in two bytes, and the frame. */
  lemma EnvelopeLayout(p: Phase, m: Bytes)
    requires |m| < 0x1_0000
    ensures var e := Envelope(p, m);
      && |e| == 12 + |m| && e[..8] == ToAscii("DOMBTCX6") && e[8] == (if p == Nonce then 1 else 2) && e[9] == 0
      && FromBE(e[10..12]) == |m| && e[12..] == m
  {
    hide ToBE, FromBE, ToAscii;
    Pow256Values();
    ToBERoundTrip(|m|, 2);
    var e := Envelope(p, m);
    assert e[..8] == ToAscii(ENVELOPE_MAGIC) && e[10..12] == ToBE(|m|, 2) && e[12..] == m;
  }

  /** A frame of the size its phase demands. */
  predicate Fits(p: Phase, m: Bytes) {
    |m| == FrameSize(p)
  }

  lemma FramedFits(p: Phase, m: Bytes)
    requires Framed(m) && KindOf(m) == PhaseTag(p)
    ensures Fits(p, m)
  {
  }

  // ===== The stream

  /** How one system call goes: it moves up to `n` bytes, is interrupted, fails, or finds the deadline passed. */
  datatype Reply = Moved(n: nat) | Interrupted | Failed | Expired

  datatype Io = Done(n: nat) | Again | Broken | Late

  /**
   One end of a duplex stream.  `schedule` fixes how the coming calls go, so a run covers every
   fragmentation and interruption; `incoming` is everything the peer will ever have written.
   */
  class Stream {
    const incoming: Bytes
    var schedule: seq<Reply>
    var written: Bytes
    var consumed: nat
    var open: bool

    ghost predicate Valid()
      reads this
    {
      consumed <= |incoming|
    }

    constructor (incoming: Bytes, schedule: seq<Reply>)
      ensures Valid() && this.incoming == incoming && written == [] && consumed == 0 && open
    {
      this.incoming := incoming;
      this.schedule := schedule;
      written, consumed, open := [], 0, true;
    }

    method Write(bytes: Bytes) returns (r: Io)
      requires Valid()
      modifies this`schedule, this`written
      ensures |schedule| < |old(schedule)| || (r == Late && schedule == old(schedule))
      ensures r.Done? ==> r.n <= |bytes| && written == old(written) + bytes[..r.n]
      ensures !r.Done? ==> written == old(written)
    {
      if schedule == [] {
        return Late;
      }
      var reply := schedule[0];
      schedule := schedule[1..];
      match reply
      case Interrupted => r := Again;
      case Failed => r := Broken;
      case Expired => r := Late;
      case Moved(n) =>
        var k := if n <= |bytes| then n else |bytes|;
        written := written + bytes[..k];
        r := Done(k);
    }

    method Read(buffer: array<Byte>, offset: nat) returns (r: Io)
      requires Valid() && offset <= buffer.Length
      modifies this`schedule, this`consumed, buffer
      ensures Valid()
      ensures |schedule| < |old(schedule)| || (r == Late && schedule == old(schedule))
      ensures r.Done? ==> offset + r.n <= buffer.Length && consumed == old(consumed) + r.n
      ensures r.Done? ==> buffer[..offset + r.n] == old(buffer[..offset]) + incoming[old(consumed)..consumed]
      ensures !r.Done? ==> consumed == old(consumed) && buffer[..] == old(buffer[..])
    {
      if schedule == [] {
        return Late;
      }
      var reply := schedule[0];
      schedule := schedule[1..];
      match reply
      case Interrupted => r := Again;
      case Failed => r := Broken;
      case Expired => r := Late;
      case Moved(n) =>
        var room := buffer.Length - offset;
        var left := |incoming| - consumed;
        var k := if n <= room && n <= left then n else if room <= left then room else left;
        forall i | 0 <= i < k {
          buffer[offset + i] := incoming[consumed + i];
        }
        consumed := consumed + k;
        r := Done(k);
    }
  }

  // ===== Whole conversations

  datatype Sent = Sent(phase: Phase, frame: Bytes)

  function Envelopes(s: seq<Sent>): Bytes {
    if s == [] then [] else Envelope(s[0].phase, s[0].frame) + Envelopes(s[1..])
  }

  predicate AllFit(s: seq<Sent>) {
    forall i :: 0 <= i < |s| ==> Fits(s[i].phase, s[i].frame)
  }

  lemma {:induction false} EnvelopesAppend(s: seq<Sent>, x: Sent)
    ensures Envelopes(s + [x]) == Envelopes(s) + Envelope(x.phase, x.frame)
  {
    hide Envelope;
    if s == [] {
      assert [x][1..] == [] && s + [x] == [x];
      assert Envelope(x.phase, x.frame) + [] == Envelope(x.phase, x.frame);
    } else {
      EnvelopesAppend(s[1..], x);
      assert (s + [x])[1..] == s[1..] + [x] && (s + [x])[0] == s[0];
    }
  }

  /** The header fixes the phase and with it the size, so an envelope is never a piece of another one. */
  lemma EnvelopeSplit(a: Sent, x: Bytes, b: Sent, y: Bytes)
    requires Fits(a.phase, a.frame) && Fits(b.phase, b.frame)
    requires Envelope(a.phase, a.frame) + x <= Envelope(b.phase, b.frame) + y
    ensures a == b && x <= y
  {
    hide ToAscii, ToBE;
    var l, r := Envelope(a.phase, a.frame) + x, Envelope(b.phase, b.frame) + y;
    assert l[8] == PhaseTag(a.phase) && r[8] == PhaseTag(b.phase);
    var n := 12 + FrameSize(a.phase);
    assert l[12..n] == a.frame && r[12..n] == b.frame;
    assert x == l[n..] && y == r[n..];
  }

  /** Bytes read as whole envelopes from the front of written envelopes are the first frames written. */
  lemma {:induction false} PrefixDelivered(got: seq<Sent>, sent: seq<Sent>)
    requires AllFit(got) && AllFit(sent) && Envelopes(got) <= Envelopes(sent)
    ensures got <= sent
  {
    hide Envelope, Fits;
    if got != [] {
      NonEmpty(got[0]);
      assert sent != [];
      EnvelopeSplit(got[0], Envelopes(got[1..]), sent[0], Envelopes(sent[1..]));
      PrefixDelivered(got[1..], sent[1..]);
      assert got == [got[0]] + got[1..] && sent == [sent[0]] + sent[1..];
    }
  }

  lemma NonEmpty(x: Sent)
    ensures Envelope(x.phase, x.frame) != []
  {
  }

  // ===== The transport

  /**
   Only envelopes of attempted frames were written; what was accepted are whole envelopes from the
   front of what the peer wrote; and until an error both directions are at an envelope boundary.
   */
  ghost predicate Conversation(written: Bytes, read: Bytes, attempted: seq<Sent>, got: seq<Sent>, broken: bool) {
    && AllFit(attempted) && AllFit(got)
    && written <= Envelopes(attempted) && Envelopes(got) <= read
    && (!broken ==> written == Envelopes(attempted) && read == Envelopes(got) && SamePhases(attempted, got))
  }

  predicate SamePhases(attempted: seq<Sent>, got: seq<Sent>) {
    |attempted| == |got| && forall i :: 0 <= i < |got| ==> got[i].phase == attempted[i].phase
  }

  /** One successful exchange: an envelope more in either direction. */
  lemma Advances(written: Bytes, read: Bytes, attempted: seq<Sent>, got: seq<Sent>, local: Sent, peer: Sent)
    requires Conversation(written, read, attempted, got, false)
    requires local.phase == peer.phase && Fits(local.phase, local.frame) && Fits(peer.phase, peer.frame)
    ensures Conversation(written + Envelope(local.phase, local.frame), read + Envelope(peer.phase, peer.frame),
              attempted + [local], got + [peer], false)
  {
    hide Envelope, Envelopes, Fits;
    EnvelopesAppend(attempted, local);
    EnvelopesAppend(got, peer);
  }

  /** A failed exchange: some of an envelope written, some bytes read. */
  lemma Breaks(written: Bytes, read: Bytes, attempted: seq<Sent>, got: seq<Sent>, local: Sent, written': Bytes, read': Bytes)
    requires Conversation(written, read, attempted, got, false) && read <= read'
    ensures written' == written ==> Conversation(written', read', attempted, got, true)
    ensures Fits(local.phase, local.frame) && written' <= written + Envelope(local.phase, local.frame) ==>
      Conversation(written', read', attempted + [local], got, true)
  {
    hide Envelope, Envelopes, Fits;
    EnvelopesAppend(attempted, local);
  }

  class Transport {
    const stream: Stream
    var poisoned: bool
    ghost var attempted: seq<Sent>
    ghost var got: seq<Sent>

    ghost predicate Valid()
      reads this, stream
    {
      stream.Valid() && Conversation(stream.written, stream.incoming[..stream.consumed], attempted, got, poisoned)
    }

    constructor (stream: Stream)
      requires stream.Valid() && stream.written == [] && stream.consumed == 0
      ensures Valid() && this.stream == stream && !poisoned && attempted == [] && got == []
    {
      this.stream := stream;
      poisoned, attempted, got := false, [], [];
    }

    method WriteDeadline(bytes: Bytes) returns (r: Result<(), DriverError>)
      requires stream.Valid()
      modifies stream`schedule, stream`written
      ensures r.Ok? ==> stream.written == old(stream.written) + bytes
      ensures r.Err? ==> r.error == TransportUnavailable
      ensures old(stream.written) <= stream.written <= old(stream.written) + bytes
    {
      var rest, moving := bytes, true;
      while rest != [] && moving
        invariant stream.Valid() && stream.written + rest == old(stream.written) + bytes
        invariant old(stream.written) <= stream.written
        decreases |stream.schedule|, moving
      {
        var io := stream.Write(rest);
        match io
        case Done(n) =>
          if n == 0 {
            moving := false;
          }
          rest := rest[n..];
        case Again =>
        case Broken => moving := false;
        case Late => moving := false;
      }
      r := if rest == [] then Ok(()) else Err(TransportUnavailable);
    }

    method ReadDeadline(buffer: array<Byte>) returns (r: Result<(), DriverError>)
      requires stream.Valid()
      modifies stream`schedule, stream`consumed, buffer
      ensures stream.Valid() && old(stream.consumed) <= stream.consumed
      ensures r.Ok? ==>
        && stream.consumed == old(stream.consumed) + buffer.Length
        && buffer[..] == stream.incoming[old(stream.consumed)..stream.consumed]
      ensures r.Err? ==> r.error == TransportUnavailable
    {
      var offset, moving := 0, true;
      while offset < buffer.Length && moving
        invariant stream.Valid() && offset <= buffer.Length && stream.consumed == old(stream.consumed) + offset
        invariant buffer[..offset] == stream.incoming[old(stream.consumed)..stream.consumed]
        decreases |stream.schedule|, moving
      {
        ghost var before := stream.consumed;
        var io := stream.Read(buffer, offset);
        match io
        case Done(n) =>
          assert stream.incoming[old(stream.consumed)..before] + stream.incoming[before..stream.consumed]
              == stream.incoming[old(stream.consumed)..stream.consumed];
          if n == 0 {
            moving := false;
          }
          offset := offset + n;
        case Again =>
          assert buffer[..offset] == buffer[..][..offset];
        case Broken =>
          assert buffer[..offset] == buffer[..][..offset];
          moving := false;
        case Late =>
          assert buffer[..offset] == buffer[..][..offset];
          moving := false;
      }
      if offset < buffer.Length {
        return Err(TransportUnavailable);
      }
      assert buffer[..offset] == buffer[..];
      r := Ok(());
    }

    /** Reads one envelope of the phase: its header, then as many bytes as the phase demands. */
    method ReadEnvelope(phase: Phase) returns (r: Result<Bytes, DriverError>)
      requires stream.Valid()
      modifies stream`schedule, stream`consumed
      ensures stream.Valid() && old(stream.consumed) <= stream.consumed
      ensures r.Ok? ==>
        && Fits(phase, r.value)
        && stream.incoming[old(stream.consumed)..stream.consumed] == Envelope(phase, r.value)
    {
      hide ToAscii, ToBE;
      ghost var start := stream.consumed;
      var header := new Byte[12];
      var _ :- ReadDeadline(header);
      if header[..] != Header(phase, FrameSize(phase)) {
        return Err(EnvelopeRejected);
      }
      ghost var middle := stream.consumed;
      var peer := new Byte[FrameSize(phase)];
      var _ :- ReadDeadline(peer);
      assert stream.incoming[start..stream.consumed]
          == stream.incoming[start..middle] + stream.incoming[middle..stream.consumed];
      r := Ok(peer[..]);
    }

    method ExchangeOnce(phase: Phase, local: Bytes, late: bool) returns (r: Result<Bytes, DriverError>)
      requires stream.Valid() && Framed(local)
      modifies stream`schedule, stream`written, stream`consumed
      ensures stream.Valid() && old(stream.consumed) <= stream.consumed
      ensures KindOf(local) != PhaseTag(phase) ==> r.Err? && stream.written == old(stream.written)
      ensures KindOf(local) == PhaseTag(phase) ==> stream.written <= old(stream.written) + Envelope(phase, local)
      ensures r.Ok? ==>
        && stream.written == old(stream.written) + Envelope(phase, local)
        && Fits(phase, r.value) && Framed(r.value) && KindOf(r.value) == PhaseTag(phase)
        && stream.incoming[old(stream.consumed)..stream.consumed] == Envelope(phase, r.value)
    {
      hide ToAscii, ToBE, Framed, Header;
      if KindOf(local) != PhaseTag(phase) {
        return Err(EnvelopeRejected);
      }
      FramedFits(phase, local);
      ghost var start := stream.written;
      var _ :- WriteDeadline(Header(phase, |local|));
      assert start + Header(phase, |local|) + local == start + Envelope(phase, local);
      var _ :- WriteDeadline(local);
      var peer :- ReadEnvelope(phase);
      if late {
        return Err(TransportUnavailable);
      }
      if !Framed(peer) || KindOf(peer) != PhaseTag(phase) {
        return Err(EnvelopeRejected);
      }
      r := Ok(peer);
    }

    /**
     Sends the local frame and obtains the peer's.  Success leaves both directions at the next header;
     an error poisons the transport, and a poisoned transport touches the stream no more.
     */
    method Exchange(phase: Phase, local: Bytes, late: bool) returns (r: Result<Bytes, DriverError>)
      requires Valid() && Framed(local)
      modifies this`poisoned, this`attempted, this`got, stream
      ensures Valid()
      ensures old(poisoned) ==>
        && r == Err(TransportUnavailable) && poisoned && unchanged(stream)
        && attempted == old(attempted) && got == old(got)
      ensures poisoned == (old(poisoned) || r.Err?) && (r.Err? && !old(poisoned) ==> !stream.open)
      ensures r.Ok? ==> attempted == old(attempted) + [Sent(phase, local)] && got == old(got) + [Sent(phase, r.value)]
      ensures r.Err? ==> got == old(got) && (attempted == old(attempted) || attempted == old(attempted) + [Sent(phase, local)])
    {
      hide Envelope, Framed, Conversation, KindOf;
      if poisoned {
        return Err(TransportUnavailable);
      }
      ghost var start, written := stream.consumed, stream.written;
      ghost var read := stream.incoming[..start];
      r := ExchangeOnce(phase, local, late);
      assert stream.incoming[..stream.consumed] == read + stream.incoming[start..stream.consumed];
      if r.Err? {
        poisoned := true;
        stream.open := false;
        Breaks(written, read, attempted, got, Sent(phase, local), stream.written, stream.incoming[..stream.consumed]);
        if KindOf(local) == PhaseTag(phase) {
          FramedFits(phase, local);
          attempted := attempted + [Sent(phase, local)];
        }
      } else {
        FramedFits(phase, local);
        Advances(written, read, attempted, got, Sent(phase, local), Sent(phase, r.value));
        attempted, got := attempted + [Sent(phase, local)], got + [Sent(phase, r.value)];
      }
    }
  }

  function KindOf(m: Bytes): Byte
    requires Framed(m)
  {
    m[10]
  }

  /**
   Two endpoints of one stream: bytes arrive in the order they were written, so what one side accepted,
   exchange by exchange, is what the other side sent, whatever the fragmentation.
   */
  lemma EndpointsAgree(a: Transport, b: Transport)
    requires a.Valid() && b.Valid()
    requires a.stream.incoming[..a.stream.consumed] <= b.stream.written
    ensures a.got <= b.attempted && (|a.got| == |b.attempted| ==> a.got == b.attempted)
    ensures !a.poisoned ==> a.stream.consumed == |Envelopes(b.attempted[..|a.got|])|
  {
    hide Envelopes, AllFit;
    assert Envelopes(a.got) <= a.stream.incoming[..a.stream.consumed];
    PrefixDelivered(a.got, b.attempted);
    assert b.attempted[..|a.got|] == a.got;
  }
}
