/**
 One publication from start to end, step by step on the shared directory
 (scripts/publish_time_refresh.py).
 */
module TimePublisher {
  import opened Wire
  import opened TimeEvidence
  import opened TimeRefresh

  datatype Status = Published | AlreadyPublished | Refused

  class StateDirectory {
    var d: Directory

    constructor (d: Directory)
      ensures this.d == d
    {
      this.d := d;
    }

    method Perform(k: Crypto, i: nat, e: Event) returns (ok: bool)
      requires Sound(k, d)
      modifies this
      ensures Sound(k, d)
      ensures ok <==> Act(k, old(d), i, e).Some?
      ensures d == if ok then Act(k, old(d), i, e).value else old(d)
      ensures d.publishers - {i} == old(d).publishers - {i}
    {
      hide Act, Sound;
      var next := Act(k, d, i, e);
      ok := next.Some?;
      if ok {
        ActSound(k, d, i, e);
        OthersUntouched(k, d, i, e);
        d := next.value;
      }
    }

    /** Writes the evidence to the temporary file in pieces of at most `chunk` bytes, flushes it and renames it into place. */
    method Replace(k: Crypto, i: nat, chunk: nat)
      requires Sound(k, d) && i in d.publishers && d.publishers[i].progress == Writing(0) && chunk > 0
      modifies this
      ensures Sound(k, d) && i in d.publishers
      ensures d.publishers[i] == old(d).publishers[i].(progress := InPlace)
      ensures Target(d) == Some(old(d).publishers[i].raw)
      ensures d.lock == old(d).lock && d.publishers - {i} == old(d).publishers - {i} && d.reported == old(d).reported
    {
      hide Sound;
      var raw := d.publishers[i].raw;
      var written := 0;
      while written < |raw|
        invariant Sound(k, d) && written <= |raw| && i in d.publishers
        invariant d.publishers[i] == old(d).publishers[i].(progress := Writing(written))
        invariant d.lock == old(d).lock && d.publishers - {i} == old(d).publishers - {i} && d.reported == old(d).reported
      {
        var n := if written + chunk <= |raw| then chunk else |raw| - written;
        var ok := Perform(k, i, Write(n));
        written := written + n;
      }
      HasTemporary(k, d, i);
      var flushed := Perform(k, i, Flush);
      HasTemporary(k, d, i);
      var renamed := Perform(k, i, Rename);
      InPlaceIsTarget(k, d, i);
    }

    /** With the lock held: refuses evidence that is not newer, otherwise puts it in place and synchronises the directory. */
    method PublishLocked(k: Crypto, i: nat, chunk: nat) returns (r: Status)
      requires Sound(k, d) && i in d.publishers && d.publishers[i].progress == Locked && chunk > 0
      modifies this
      ensures Sound(k, d) && i in d.publishers && d.publishers - {i} == old(d).publishers - {i} && d.lock == old(d).lock
      ensures var raw := old(d).publishers[i].raw;
        && (r != Refused <==> UpTo(Target(old(d)), Some(raw)))
        && (r == Refused ==> d == old(d))
        && (r != Refused ==> Target(d) == Some(raw) && Content(d.disk) == Some(raw) && d.reported == old(d).reported + {raw})
        && (r == AlreadyPublished ==> Target(old(d)) == Some(raw))
    {
      hide Sound, UpTo;
      var proceed := Perform(k, i, Compare);
      if !proceed {
        return Refused;
      }
      if d.publishers[i].progress == Found {
        r := AlreadyPublished;
        var flushed := Perform(k, i, Flush);
      } else {
        r := Published;
        Replace(k, i, chunk);
      }
      InPlaceIsTarget(k, d, i);
      var synced := Perform(k, i, Sync);
    }

    /**
     Publishes verified evidence, or refuses and leaves the target alone.  Success means the target, as
     processes and the disk hold it, is exactly this evidence; either way the lock is free again.
     */
    method Publish(k: Crypto, i: nat, raw: Bytes, pins: Pins, now: int, chunk: nat) returns (r: Status)
      requires Sound(k, d) && i !in d.publishers && chunk > 0
      modifies this
      ensures Sound(k, d) && d.publishers == old(d).publishers && d.lock == old(d).lock
      ensures r != Refused <==> Verified(k, raw, pins, now) && old(d).lock.None? && UpTo(Target(old(d)), Some(raw))
      ensures r == Refused ==> Target(d) == Target(old(d)) && d.disk == old(d).disk && d.reported == old(d).reported
      ensures r != Refused ==> Target(d) == Some(raw) && Content(d.disk) == Some(raw) && d.reported == old(d).reported + {raw}
      ensures r == AlreadyPublished ==> Target(old(d)) == Some(raw)
    {
      hide Sound, Verified, UpTo;
      var arrived := Perform(k, i, Arrive(raw, pins, now));
      if !arrived {
        return Refused;
      }
      LockHolderPresent(k, old(d));
      var acquired := Perform(k, i, Acquire);
      assert d.publishers - {i} == old(d).publishers;
      if acquired {
        r := PublishLocked(k, i, chunk);
      } else {
        r := Refused;
      }
      var left := Perform(k, i, Leave(true));
    }
  }

  lemma OthersUntouched(k: Crypto, d: Directory, i: nat, e: Event)
    requires Act(k, d, i, e).Some?
    ensures Act(k, d, i, e).value.publishers - {i} == d.publishers - {i}
  {
    hide Verified, UpTo;
  }

  lemma HasTemporary(k: Crypto, d: Directory, i: nat)
    requires Sound(k, d) && i in d.publishers && (d.publishers[i].progress.Writing? || d.publishers[i].progress.Flushed?)
    ensures i in d.temporaries
  {
    hide Verified;
    assert PublisherSound(k, d, i);
  }

  lemma InPlaceIsTarget(k: Crypto, d: Directory, i: nat)
    requires Sound(k, d) && i in d.publishers && d.publishers[i].progress == InPlace
    ensures Target(d) == Some(d.publishers[i].raw)
  {
    hide Verified, Target;
    assert PublisherSound(k, d, i);
  }

  lemma LockHolderPresent(k: Crypto, d: Directory)
    requires Sound(k, d)
    ensures d.lock.Some? ==> d.lock.value in d.publishers
  {
    hide PublisherSound;
  }
}
