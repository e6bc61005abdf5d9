/**
 A power failure between the rename and the synchronisation of the directory
 can take the target back (scripts/publish_time_refresh.py).
 */
module TimeInterruption {
  import opened Wire
  import opened TimeEvidence
  import opened TimeRefresh

  /** A publication up to its rename, and a power failure before the directory is synchronised. */
  function Actions(raw: Bytes, pins: Pins, now: int): seq<Action> {
    [Publish(0, Arrive(raw, pins, now)), Publish(0, Acquire), Publish(0, Compare), Publish(0, Write(|raw|)),
     Publish(0, Flush), Publish(0, Rename), PowerFails]
  }

  function At(first: Option<File>, p: Publisher): Directory {
    Directory(first, [], Some(0), map[], map[0 := p], {})
  }

  function States(first: Option<File>, raw: Bytes, pins: Pins, now: int): seq<Directory> {
    var p := Publisher(raw, pins, now, Checked);
    var idle := Directory(first, [], None, map[], map[], {});
    [idle,
     idle.(publishers := map[0 := p]),
     At(first, p.(progress := Locked)),
     At(first, p.(progress := Writing(0))).(temporaries := map[0 := File([], false)]),
     At(first, p.(progress := Writing(|raw|))).(temporaries := map[0 := File(raw, false)]),
     At(first, p.(progress := Flushed)).(temporaries := map[0 := File(raw, true)]),
     At(first, p.(progress := InPlace)).(renamed := [File(raw, true)]),
     idle]
  }

  lemma TakesLock(k: Crypto, first: Option<File>, raw: Bytes, pins: Pins, now: int, j: nat)
    requires Verified(k, raw, pins, now) && Ahead(Content(first), Some(raw)) && 0 <= j < 3
    ensures var ds := States(first, raw, pins, now); Act(k, ds[j], 0, Actions(raw, pins, now)[j].event) == Some(ds[j + 1])
  {
    hide Verified, UpTo;
    var ds := States(first, raw, pins, now);
    var p := Publisher(raw, pins, now, Checked);
    assert map[0 := p][0 := p.(progress := Locked)] == map[0 := p.(progress := Locked)];
    assert map[0 := p.(progress := Locked)][0 := p.(progress := Writing(0))] == map[0 := p.(progress := Writing(0))];
  }

  lemma Replaces(k: Crypto, first: Option<File>, raw: Bytes, pins: Pins, now: int, j: nat)
    requires Verified(k, raw, pins, now) && Ahead(Content(first), Some(raw)) && 3 <= j < 6
    ensures var ds := States(first, raw, pins, now); Act(k, ds[j], 0, Actions(raw, pins, now)[j].event) == Some(ds[j + 1])
  {
    hide Verified, UpTo;
    var ds := States(first, raw, pins, now);
    var p := Publisher(raw, pins, now, Checked);
    var f := File(raw, false);
    assert raw[..0 + |raw|] == raw;
    assert map[0 := File([], false)][0 := f] == map[0 := f];
    assert map[0 := f][0 := f.(flushed := true)] == map[0 := f.(flushed := true)];
    assert map[0 := p.(progress := Writing(0))][0 := p.(progress := Writing(|raw|))] == map[0 := p.(progress := Writing(|raw|))];
    assert map[0 := p.(progress := Writing(|raw|))][0 := p.(progress := Flushed)] == map[0 := p.(progress := Flushed)];
    assert map[0 := p.(progress := Flushed)][0 := p.(progress := InPlace)] == map[0 := p.(progress := InPlace)];
    assert ds[5].temporaries - {0} == ds[6].temporaries && ds[5].renamed + [File(raw, true)] == ds[6].renamed;
    assert Act(k, ds[3], 0, Write(|raw|)) == Some(ds[4]);
    assert Act(k, ds[4], 0, Flush) == Some(ds[5]);
    assert Act(k, ds[5], 0, Rename) == Some(ds[6]);
  }

  /** Interrupting the publication of any newer record can leave the older target. */
  lemma InterruptedGoesBack(k: Crypto, first: Option<File>, raw: Bytes, pins: Pins, now: int)
    requires Verified(k, raw, pins, now) && Ahead(Content(first), Some(raw)) && (first.Some? ==> first.value.flushed)
    ensures var ds := States(first, raw, pins, now);
      && Run(k, ds, Actions(raw, pins, now))
      && Target(ds[6]) == Some(raw) && Target(ds[7]) == Content(first) && !UpTo(Target(ds[6]), Target(ds[7]))
  {
    hide Verified, UpTo, Act;
    var ds, actions := States(first, raw, pins, now), Actions(raw, pins, now);
    forall j | 0 <= j < 6
      ensures Step(k, ds[j], actions[j], ds[j + 1])
    {
      if j < 3 {
        TakesLock(k, first, raw, pins, now, j);
      } else {
        Replaces(k, first, raw, pins, now, j);
      }
    }
    assert Entries(ds[6])[0] == first;
    assert Remains(Entries(ds[6])[0], first);
    assert PowerFailure(ds[6], ds[7]);
    if UpTo(Some(raw), Content(first)) {
      UpToAntisymmetric(Some(raw), Content(first));
    }
  }

  // ===== Two records, one older than the other

  function Ones(n: nat): (s: Bytes)
    ensures |s| == n && forall i :: 0 <= i < n ==> s[i] == 1
  {
    seq(n, _ => 1)
  }

  function Head(sequence: nat): Bytes {
    ToBE(sequence, 8) + ToBE(1, 8) + ToBE(3, 8)
  }

  function Body(sequence: nat): Bytes {
    BodyHeader() + Ones(64) + Head(sequence)
    + ([1, 1, 0, 0] + Zeros(256)) + ([2, 1, 0, 0] + Zeros(256)) + ([3, 1, 0, 0] + Zeros(256))
  }

  function Record(sequence: nat): Bytes {
    Encode(Evidence(Body(sequence), [Signature(0, Ones(64))]))
  }

  const PINS := Pins([[7]], 1, 1, Ones(32), Ones(32))

  const ACCEPTING := Crypto(_ => [], (_, _, _) => true)

  lemma BodyParts(sequence: nat)
    ensures var b := Body(sequence);
      && |b| == BODY_SIZE && b[..12] == BodyHeader() && b[12..76] == Ones(64) && b[76..100] == Head(sequence)
      && CheckpointValid(b, 0) && CheckpointValid(b, 1) && CheckpointValid(b, 2)
  {
    hide Head, BodyHeader;
    HeaderSize();
  }

  lemma HeaderSize()
    ensures |BodyHeader()| == 12 && forall n :: |Head(n)| == 24
  {
  }

  lemma BodyFields(sequence: nat)
    requires 0 < sequence < Pow256(8)
    ensures var b := Body(sequence);
      && BodyValid(b) && Policy(b) == Ones(32) && Scope(b) == Ones(32)
      && Sequence(b) == sequence && Observed(b) == 1 && Expiry(b) == 3
  {
    hide ToBE, FromBE, Body, BodyHeader, CheckpointValid;
    BodyParts(sequence);
    Pow256Values();
    ToBERoundTrip(sequence, 8);
    ToBERoundTrip(1, 8);
    ToBERoundTrip(3, 8);
    var b := Body(sequence);
    var h := b[76..100];
    assert b[12..44] == b[12..76][..32] == Ones(32);
    assert b[44..76] == b[12..76][32..] == Ones(32);
    assert b[76..84] == h[..8] == ToBE(sequence, 8);
    assert b[84..92] == h[8..16] == ToBE(1, 8);
    assert b[92..100] == h[16..] == ToBE(3, 8);
    assert Ones(32)[0] != ZERO32[0];
  }

  lemma RecordVerified(sequence: nat)
    requires 0 < sequence < Pow256(8)
    ensures Verified(ACCEPTING, Record(sequence), PINS, 2) && Usable(Record(sequence))
    ensures BodyOf(Record(sequence)) == Body(sequence)
  {
    hide Decode, Encode, Body, BodyValid, Pow256;
    BodyFields(sequence);
    Pow256Values();
    var e := Evidence(Body(sequence), [Signature(0, Ones(64))]);
    assert Ones(64)[0] != ZERO64[0];
    assert SignaturesValid(e.signatures);
    DecodeExact(Record(sequence), e);
    BodySized(e.body);
  }

  /** A run in which the target is record 2, and record 1 again after the power failed. */
  lemma TargetCanGoBack()
    ensures var ds := States(Some(File(Record(1), true)), Record(2), PINS, 2);
      && Run(ACCEPTING, ds, Actions(Record(2), PINS, 2))
      && Target(ds[6]) == Some(Record(2)) && Target(ds[7]) == Some(Record(1)) && Newer(Record(1), Record(2))
  {
    hide Decode, Record, Body, Verified, Run, Pow256, Sequence, Policy, Scope;
    Pow256Values();
    RecordVerified(1);
    RecordVerified(2);
    BodyFields(1);
    BodyFields(2);
    InterruptedGoesBack(ACCEPTING, Some(File(Record(1), true)), Record(2), PINS, 2);
  }
}
