/**
 Publishing route-time evidence: any number of publishers share one state
 directory, one lock and one target file, and may stop anywhere
 (scripts/publish_time_refresh.py).
 */
module TimeRefresh {
  import opened Wire
  import opened TimeEvidence

  /** A file as processes read it; until it is flushed the disk may hold any beginning of it. */
  datatype File = File(content: Bytes, flushed: bool)

  /** How far a publisher has come. */
  datatype Progress =
    | Checked                 // its evidence verified
    | Locked                  // it holds the lock
    | Writing(written: nat)   // it found the target older and is filling its temporary file
    | Flushed                 // the temporary file is whole and on the disk
    | Found                   // the target was its evidence already
    | InPlace                 // the target is its evidence, and on the disk as a file
    | Durable                 // the directory is synchronised; it reports success

  datatype Publisher = Publisher(raw: Bytes, pins: Pins, now: int, progress: Progress)

  /**
   The directory: the target file it held when it was last synchronised, the files renamed to the target
   since, the lock and the temporary files.  `reported` records the evidence whose publication was
   reported as successful.
   */
  datatype Directory = Directory(disk: Option<File>, renamed: seq<File>, lock: Option<nat>,
    temporaries: map<nat, File>, publishers: map<nat, Publisher>, reported: set<Bytes>)

  datatype Event =
    | Arrive(raw: Bytes, pins: Pins, now: int)
    | Acquire
    | Compare
    | Write(n: nat)
    | Flush
    | Rename
    | Sync
    | Leave(unlink: bool)

  function Content(f: Option<File>): Option<Bytes> {
    if f.Some? then Some(f.value.content) else None
  }

  /** What the target can be after a power failure, oldest first, and as it is now, last. */
  function Entries(d: Directory): (es: seq<Option<File>>)
    ensures |es| == 1 + |d.renamed|
  {
    [d.disk] + seq(|d.renamed|, i requires 0 <= i < |d.renamed| => Some(d.renamed[i]))
  }

  /** The target as processes read it. */
  function Target(d: Directory): Option<Bytes> {
    if d.renamed == [] then Content(d.disk) else Some(d.renamed[|d.renamed| - 1].content)
  }

  // ===== Newer evidence

  predicate Usable(raw: Bytes) {
    Decode(raw).Some? && |Decode(raw).value.body| == BODY_SIZE
  }

  function BodyOf(raw: Bytes): Bytes
    requires Usable(raw)
  {
    Decode(raw).value.body
  }

  /** The same policy and route scope, and a strictly larger sequence. */
  predicate Newer(a: Bytes, b: Bytes) {
    && Usable(a) && Usable(b)
    && Policy(BodyOf(a)) == Policy(BodyOf(b)) && Scope(BodyOf(a)) == Scope(BodyOf(b))
    && Sequence(BodyOf(a)) < Sequence(BodyOf(b))
  }

  /** Nothing yet, the same bytes, or something newer. */
  predicate UpTo(a: Option<Bytes>, b: Option<Bytes>) {
    a.None? || a == b || (b.Some? && Newer(a.value, b.value))
  }

  predicate Ahead(a: Option<Bytes>, b: Option<Bytes>) {
    a != b && UpTo(a, b)
  }

  lemma UpToTransitive(a: Option<Bytes>, b: Option<Bytes>, c: Option<Bytes>)
    requires UpTo(a, b) && UpTo(b, c)
    ensures UpTo(a, c)
  {
    hide Decode;
  }

  lemma UpToAntisymmetric(a: Option<Bytes>, b: Option<Bytes>)
    requires UpTo(a, b) && UpTo(b, a)
    ensures a == b
  {
    hide Decode;
  }

  // ===== Steps

  /** One publisher's next action, when it may take it. */
  function Act(k: Crypto, d: Directory, i: nat, e: Event): Option<Directory> {
    if e.Arrive? then
      if i in d.publishers || !Verified(k, e.raw, e.pins, e.now) then None
      else Some(d.(publishers := d.publishers[i := Publisher(e.raw, e.pins, e.now, Checked)]))
    else if i !in d.publishers then None
    else
      var p := d.publishers[i];
      match e
      case Acquire =>
        if p.progress != Checked || d.lock.Some? then None
        else Some(d.(lock := Some(i), publishers := d.publishers[i := p.(progress := Locked)]))
      case Compare =>
        if p.progress != Locked || !UpTo(Target(d), Some(p.raw)) then None
        else if Target(d) == Some(p.raw) then Some(d.(publishers := d.publishers[i := p.(progress := Found)]))
        else Some(d.(temporaries := d.temporaries[i := File([], false)],
          publishers := d.publishers[i := p.(progress := Writing(0))]))
      case Write(n) =>
        if !p.progress.Writing? || p.progress.written + n > |p.raw| then None
        else
          var m := p.progress.written + n;
          Some(d.(temporaries := d.temporaries[i := File(p.raw[..m], false)],
            publishers := d.publishers[i := p.(progress := Writing(m))]))
      case Flush =>
        if p.progress == Writing(|p.raw|) && i in d.temporaries then
          Some(d.(temporaries := d.temporaries[i := d.temporaries[i].(flushed := true)],
            publishers := d.publishers[i := p.(progress := Flushed)]))
        else if p.progress == Found then
          Some(FlushTarget(d).(publishers := d.publishers[i := p.(progress := InPlace)]))
        else None
      case Rename =>
        if p.progress != Flushed || i !in d.temporaries then None
        else Some(d.(renamed := d.renamed + [d.temporaries[i]], temporaries := d.temporaries - {i},
          publishers := d.publishers[i := p.(progress := InPlace)]))
      case Sync =>
        if p.progress != InPlace then None
        else Some(d.(disk := if d.renamed == [] then d.disk else Some(d.renamed[|d.renamed| - 1]), renamed := [],
          reported := d.reported + {p.raw}, publishers := d.publishers[i := p.(progress := Durable)]))
      case Leave(unlink) =>
        Some(d.(lock := if d.lock == Some(i) then None else d.lock, publishers := d.publishers - {i},
          temporaries := if unlink then d.temporaries - {i} else d.temporaries))
      case Arrive(_, _, _) => None
  }

  function FlushTarget(d: Directory): Directory {
    if d.renamed != [] then
      var last := |d.renamed| - 1;
      d.(renamed := d.renamed[last := d.renamed[last].(flushed := true)])
    else if d.disk.Some? then d.(disk := Some(d.disk.value.(flushed := true)))
    else d
  }

  /** What is left of a file: all of it once flushed, otherwise any beginning. */
  predicate Remains(f: Option<File>, left: Option<File>) {
    match f
    case None => left.None?
    case Some(file) =>
      && left.Some? && left.value.flushed && left.value.content <= file.content
      && (file.flushed ==> left.value.content == file.content)
  }

  /**
   A power failure ends every publisher.  The target is what remains of the last synchronised file or of
   any file renamed since.
   */
  ghost predicate PowerFailure(d: Directory, d': Directory) {
    && d'.publishers == map[] && d'.lock.None? && d'.reported == d.reported && d'.renamed == []
    && exists e :: 0 <= e < |Entries(d)| && Remains(Entries(d)[e], d'.disk)
  }

  datatype Action = Publish(i: nat, event: Event) | PowerFails

  ghost predicate Step(k: Crypto, d: Directory, a: Action, d': Directory) {
    match a
    case Publish(i, e) => Act(k, d, i, e) == Some(d')
    case PowerFails => PowerFailure(d, d')
  }

  /** Whatever the disk holds, nobody is publishing and nothing has been reported. */
  predicate Start(d: Directory) {
    && d.renamed == [] && (d.disk.Some? ==> d.disk.value.flushed)
    && d.lock.None? && d.publishers == map[] && d.reported == {}
  }

  ghost predicate Run(k: Crypto, ds: seq<Directory>, actions: seq<Action>) {
    && |ds| == |actions| + 1 && Start(ds[0])
    && forall j :: 0 <= j < |actions| ==> Step(k, ds[j], actions[j], ds[j + 1])
  }

  // ===== What every step keeps

  /** Only the lock holder is past `Checked`, and what it found out about the target still holds. */
  ghost predicate PublisherSound(k: Crypto, d: Directory, i: nat)
    requires i in d.publishers
  {
    var p := d.publishers[i];
    && Verified(k, p.raw, p.pins, p.now)
    && (p.progress != Checked ==> d.lock == Some(i))
    && (p.progress.Writing? ==>
         && p.progress.written <= |p.raw| && i in d.temporaries
         && d.temporaries[i].content == p.raw[..p.progress.written])
    && (p.progress.Flushed? ==> i in d.temporaries && d.temporaries[i] == File(p.raw, true))
    && (p.progress.Writing? || p.progress.Flushed? ==> Ahead(Target(d), Some(p.raw)))
    && (p.progress.Found? || p.progress.InPlace? || p.progress.Durable? ==> Target(d) == Some(p.raw))
  }

  /** Each file the target can be is on the disk whole, and is newer than the ones before it. */
  ghost predicate EntriesSound(es: seq<Option<File>>) {
    && (forall e :: 0 <= e < |es| && es[e].Some? ==> es[e].value.flushed)
    && (forall e, f :: 0 <= e < f < |es| ==> Ahead(Content(es[e]), Content(es[f])))
  }

  ghost predicate Sound(k: Crypto, d: Directory) {
    && (forall i :: i in d.publishers ==> PublisherSound(k, d, i))
    && (d.lock.Some? ==> d.lock.value in d.publishers)
    && EntriesSound(Entries(d))
    && (forall r :: r in d.reported ==> UpTo(Some(r), Content(d.disk)))
  }

  lemma TargetIsLast(d: Directory)
    ensures Target(d) == Content(Entries(d)[|d.renamed|])
  {
  }

  lemma DiskUpToTarget(d: Directory)
    requires EntriesSound(Entries(d))
    ensures UpTo(Content(d.disk), Target(d))
  {
    hide UpTo;
    assert Entries(d)[0] == d.disk;
    TargetIsLast(d);
    if d.renamed == [] {
      SameUpTo(Content(d.disk));
    } else {
      assert Ahead(Content(Entries(d)[0]), Content(Entries(d)[|d.renamed|]));
    }
  }

  lemma SameUpTo(a: Option<Bytes>)
    ensures UpTo(a, a)
  {
  }

  lemma AheadTransitive(a: Option<Bytes>, b: Option<Bytes>, c: Option<Bytes>)
    requires UpTo(a, b) && Ahead(b, c)
    ensures Ahead(a, c)
  {
    hide UpTo;
    UpToTransitive(a, b, c);
    if a == c {
      UpToAntisymmetric(a, b);
    }
  }

  // ===== The files behind the target, step by step

  lemma FlushChangesNothing(d: Directory)
    requires EntriesSound(Entries(d))
    ensures FlushTarget(d) == d
  {
    assert Entries(d)[|d.renamed|] == if d.renamed == [] then d.disk else Some(d.renamed[|d.renamed| - 1]);
  }

  lemma RenameKeepsEntries(d: Directory, d': Directory, f: File)
    requires EntriesSound(Entries(d)) && f.flushed && Ahead(Target(d), Some(f.content))
    requires d'.disk == d.disk && d'.renamed == d.renamed + [f]
    ensures EntriesSound(Entries(d'))
  {
    hide Ahead, UpTo;
    TargetIsLast(d);
    assert Entries(d') == Entries(d) + [Some(f)];
    forall e | 0 <= e <= |d.renamed|
      ensures Ahead(Content(Entries(d)[e]), Some(f.content))
    {
      EntryUpToTarget(d, e);
      AheadTransitive(Content(Entries(d)[e]), Target(d), Some(f.content));
    }
  }

  lemma EntryUpToTarget(d: Directory, e: nat)
    requires EntriesSound(Entries(d)) && e <= |d.renamed|
    ensures UpTo(Content(Entries(d)[e]), Target(d))
  {
    hide UpTo;
    TargetIsLast(d);
    if e == |d.renamed| {
      SameUpTo(Target(d));
    }
  }

  lemma SyncKeepsEntries(d: Directory, d': Directory)
    requires EntriesSound(Entries(d)) && d'.renamed == []
    requires d'.disk == if d.renamed == [] then d.disk else Some(d.renamed[|d.renamed| - 1])
    ensures EntriesSound(Entries(d'))
  {
    assert Entries(d')[0] == Entries(d)[|d.renamed|];
  }

  lemma ActKeepsEntries(k: Crypto, d: Directory, i: nat, e: Event)
    requires Sound(k, d) && Act(k, d, i, e).Some?
    ensures EntriesSound(Entries(Act(k, d, i, e).value))
  {
    hide Verified, UpTo, EntriesSound;
    var d' := Act(k, d, i, e).value;
    if i in d.publishers {
      assert PublisherSound(k, d, i);
      if e.Rename? {
        RenameKeepsEntries(d, d', d.temporaries[i]);
      } else if e.Sync? {
        SyncKeepsEntries(d, d');
      } else {
        FlushChangesNothing(d);
      }
    }
  }

  lemma ActMovesForward(k: Crypto, d: Directory, i: nat, e: Event)
    requires Sound(k, d) && Act(k, d, i, e).Some?
    ensures var d' := Act(k, d, i, e).value; UpTo(Target(d), Target(d')) && UpTo(Content(d.disk), Content(d'.disk))
  {
    hide Verified, UpTo, EntriesSound;
    var d' := Act(k, d, i, e).value;
    SameUpTo(Target(d));
    SameUpTo(Content(d.disk));
    DiskUpToTarget(d);
    if i in d.publishers {
      assert PublisherSound(k, d, i);
      FlushChangesNothing(d);
    }
  }

  lemma WholeFile(p: Publisher)
    requires p.progress == Writing(|p.raw|)
    ensures p.raw[..p.progress.written] == p.raw
  {
  }

  lemma ActorStaysSound(k: Crypto, d: Directory, i: nat, e: Event)
    requires Sound(k, d) && Act(k, d, i, e).Some?
    ensures var d' := Act(k, d, i, e).value; i in d'.publishers ==> PublisherSound(k, d', i)
  {
    hide Verified, UpTo, EntriesSound;
    if i in d.publishers {
      assert PublisherSound(k, d, i);
      FlushChangesNothing(d);
      if e.Flush? && d.publishers[i].progress.Writing? {
        WholeFile(d.publishers[i]);
      }
    }
  }

  lemma OtherStaysSound(k: Crypto, d: Directory, i: nat, e: Event, j: nat)
    requires Sound(k, d) && Act(k, d, i, e).Some? && j != i && j in d.publishers
    ensures var d' := Act(k, d, i, e).value; j in d'.publishers && PublisherSound(k, d', j)
  {
    hide Verified, UpTo, EntriesSound;
    assert PublisherSound(k, d, j);
    if i in d.publishers {
      assert PublisherSound(k, d, i);
    }
  }

  lemma PublishersStaySound(k: Crypto, d: Directory, i: nat, e: Event)
    requires Sound(k, d) && Act(k, d, i, e).Some?
    ensures var d' := Act(k, d, i, e).value;
      && (forall j :: j in d'.publishers ==> PublisherSound(k, d', j))
      && (d'.lock.Some? ==> d'.lock.value in d'.publishers)
  {
    hide Verified, UpTo, EntriesSound, PublisherSound;
    var d' := Act(k, d, i, e).value;
    forall j | j in d'.publishers
      ensures PublisherSound(k, d', j)
    {
      if j == i {
        ActorStaysSound(k, d, i, e);
      } else {
        OtherStaysSound(k, d, i, e, j);
      }
    }
  }

  lemma NewReport(k: Crypto, d: Directory, i: nat, e: Event, r: Bytes)
    requires Sound(k, d) && Act(k, d, i, e).Some? && r in Act(k, d, i, e).value.reported
    ensures r in d.reported || Content(Act(k, d, i, e).value.disk) == Some(r)
  {
    hide UpTo, Verified, EntriesSound;
    if i in d.publishers {
      assert PublisherSound(k, d, i);
    }
  }

  lemma ReportsKept(k: Crypto, d: Directory, i: nat, e: Event)
    requires Sound(k, d) && Act(k, d, i, e).Some?
    ensures var d' := Act(k, d, i, e).value; forall r :: r in d'.reported ==> UpTo(Some(r), Content(d'.disk))
  {
    var d' := Act(k, d, i, e).value;
    hide Act, UpTo, PublisherSound, EntriesSound;
    ActMovesForward(k, d, i, e);
    forall r | r in d'.reported
      ensures UpTo(Some(r), Content(d'.disk))
    {
      NewReport(k, d, i, e, r);
      if r in d.reported {
        UpToTransitive(Some(r), Content(d.disk), Content(d'.disk));
      } else {
        SameUpTo(Some(r));
      }
    }
  }

  lemma ActSound(k: Crypto, d: Directory, i: nat, e: Event)
    requires Sound(k, d) && Act(k, d, i, e).Some?
    ensures Sound(k, Act(k, d, i, e).value)
  {
    PublishersStaySound(k, d, i, e);
    ActKeepsEntries(k, d, i, e);
    ReportsKept(k, d, i, e);
    hide Act, PublisherSound, UpTo, EntriesSound;
  }

  /** Since every file was flushed before it was renamed, a power failure leaves one of them whole. */
  lemma PowerFailureWhole(d: Directory, d': Directory) returns (e: nat)
    requires EntriesSound(Entries(d)) && PowerFailure(d, d')
    ensures e <= |d.renamed| && d'.disk == Entries(d)[e] && Target(d') == Content(Entries(d)[e])
  {
    hide Ahead, Entries;
    e :| 0 <= e < |Entries(d)| && Remains(Entries(d)[e], d'.disk);
  }

  /** Without the flush a power failure may leave any proper beginning. */
  lemma UnflushedMayTear(d: Directory, e: nat, n: nat)
    requires e <= |d.renamed| && Entries(d)[e].Some? && !Entries(d)[e].value.flushed
    requires n < |Entries(d)[e].value.content|
    ensures exists d' :: PowerFailure(d, d') && Target(d') == Some(Entries(d)[e].value.content[..n])
  {
    var left := Some(File(Entries(d)[e].value.content[..n], true));
    var d' := Directory(left, [], None, map[], map[], d.reported);
    assert Remains(Entries(d)[e], left);
    assert PowerFailure(d, d');
  }

  lemma PowerFailureSound(k: Crypto, d: Directory, d': Directory)
    requires Sound(k, d) && PowerFailure(d, d')
    ensures Sound(k, d') && UpTo(Content(d.disk), Content(d'.disk))
  {
    hide UpTo, PublisherSound, PowerFailure;
    var e := PowerFailureWhole(d, d');
    assert PowerFailure(d, d') ==> d'.publishers == map[] && d'.lock.None? && d'.reported == d.reported && d'.renamed == [] by {
      FailureEnds(d, d');
    }
    DiskUpToEntry(d, e);
    assert Entries(d')[0] == d'.disk;
    forall r | r in d'.reported
      ensures UpTo(Some(r), Content(d'.disk))
    {
      UpToTransitive(Some(r), Content(d.disk), Content(d'.disk));
    }
  }

  lemma FailureEnds(d: Directory, d': Directory)
    requires PowerFailure(d, d')
    ensures d'.publishers == map[] && d'.lock.None? && d'.reported == d.reported && d'.renamed == []
  {
  }

  lemma DiskUpToEntry(d: Directory, e: nat)
    requires EntriesSound(Entries(d)) && e <= |d.renamed|
    ensures UpTo(Content(d.disk), Content(Entries(d)[e]))
  {
    hide UpTo;
    assert Entries(d)[0] == d.disk;
    if e == 0 {
      SameUpTo(Content(d.disk));
    } else {
      assert Ahead(Content(Entries(d)[0]), Content(Entries(d)[e]));
    }
  }

  lemma StartSound(k: Crypto, d: Directory)
    requires Start(d)
    ensures Sound(k, d)
  {
    assert Entries(d) == [d.disk];
  }

  lemma {:induction false} RunSound(k: Crypto, ds: seq<Directory>, actions: seq<Action>, n: nat)
    requires Run(k, ds, actions) && n < |ds|
    ensures Sound(k, ds[n])
  {
    hide Act, PowerFailure, Sound, Start;
    if n == 0 {
      StartSound(k, ds[0]);
    } else {
      RunSound(k, ds, actions, n - 1);
      assert Step(k, ds[n - 1], actions[n - 1], ds[n]);
      match actions[n - 1]
      case Publish(i, e) => ActSound(k, ds[n - 1], i, e);
      case PowerFails => PowerFailureSound(k, ds[n - 1], ds[n]);
    }
  }

  // ===== The target only moves forward

  /** A power failure cannot take the target back exactly when no rename waits for the directory to be synchronised. */
  lemma PowerFailureExact(k: Crypto, d: Directory)
    requires Sound(k, d)
    ensures (forall d' :: PowerFailure(d, d') ==> UpTo(Target(d), Target(d'))) <==> d.renamed == []
  {
    hide UpTo, PublisherSound;
    if d.renamed == [] {
      forall d' | PowerFailure(d, d')
        ensures UpTo(Target(d), Target(d'))
      {
        var e := PowerFailureWhole(d, d');
        SameUpTo(Target(d));
      }
    } else {
      var d' := Directory(d.disk, [], None, map[], map[], d.reported);
      assert Entries(d)[0] == d.disk;
      assert Remains(Entries(d)[0], d'.disk);
      assert PowerFailure(d, d');
      TargetIsLast(d);
      assert Ahead(Content(Entries(d)[0]), Content(Entries(d)[|d.renamed|]));
      if UpTo(Target(d), Target(d')) {
        UpToAntisymmetric(Target(d), Target(d'));
      }
    }
  }

  /** No power failure between two moments strikes while a rename waits for the directory to be synchronised. */
  predicate Spared(ds: seq<Directory>, actions: seq<Action>, m: nat, n: nat)
    requires m <= n < |ds| == |actions| + 1
  {
    forall j :: m <= j < n && actions[j].PowerFails? ==> ds[j].renamed == []
  }

  /**
   In every interleaving of publishers and crashes, and of power failures that strike a synchronised
   directory, a later target is the same bytes as an earlier one or newer evidence for the same policy
   and route scope.
   */
  lemma {:induction false} TargetNeverGoesBack(k: Crypto, ds: seq<Directory>, actions: seq<Action>, m: nat, n: nat)
    requires Run(k, ds, actions) && m <= n < |ds| && Spared(ds, actions, m, n)
    ensures UpTo(Target(ds[m]), Target(ds[n]))
  {
    hide Act, Sound, UpTo, Target, PowerFailure;
    if m == n {
      SameUpTo(Target(ds[m]));
    } else {
      TargetNeverGoesBack(k, ds, actions, m, n - 1);
      RunSound(k, ds, actions, n - 1);
      assert Step(k, ds[n - 1], actions[n - 1], ds[n]);
      match actions[n - 1] {
        case Publish(i, e) => ActMovesForward(k, ds[n - 1], i, e);
        case PowerFails => PowerFailureExact(k, ds[n - 1]);
      }
      UpToTransitive(Target(ds[m]), Target(ds[n - 1]), Target(ds[n]));
    }
  }

  /** What the disk holds never goes back at all, and evidence reported as published is never lost, even to power failures. */
  lemma {:induction false} DiskNeverGoesBack(k: Crypto, ds: seq<Directory>, actions: seq<Action>, m: nat, n: nat)
    requires Run(k, ds, actions) && m <= n < |ds|
    ensures UpTo(Content(ds[m].disk), Content(ds[n].disk))
    ensures forall r :: r in ds[m].reported ==> UpTo(Some(r), Content(ds[n].disk)) && UpTo(Some(r), Target(ds[n]))
  {
    hide Act, UpTo, PublisherSound, EntriesSound, PowerFailure;
    RunSound(k, ds, actions, n);
    DiskUpToTarget(ds[n]);
    if m == n {
      SameUpTo(Content(ds[m].disk));
    } else {
      DiskNeverGoesBack(k, ds, actions, m, n - 1);
      RunSound(k, ds, actions, n - 1);
      assert Step(k, ds[n - 1], actions[n - 1], ds[n]);
      DiskStep(k, ds[n - 1], actions[n - 1], ds[n]);
      UpToTransitive(Content(ds[m].disk), Content(ds[n - 1].disk), Content(ds[n].disk));
    }
    forall r | r in ds[m].reported
      ensures UpTo(Some(r), Content(ds[n].disk)) && UpTo(Some(r), Target(ds[n]))
    {
      RunSound(k, ds, actions, m);
      UpToTransitive(Some(r), Content(ds[m].disk), Content(ds[n].disk));
      UpToTransitive(Some(r), Content(ds[n].disk), Target(ds[n]));
    }
  }

  lemma DiskStep(k: Crypto, d: Directory, a: Action, d': Directory)
    requires Sound(k, d) && Step(k, d, a, d')
    ensures UpTo(Content(d.disk), Content(d'.disk))
  {
    hide Act, PowerFailure, Sound, UpTo;
    match a
    case Publish(i, e) => ActMovesForward(k, d, i, e);
    case PowerFails => PowerFailureSound(k, d, d');
  }

  /** Two targets seen in one run with the same sequence are the same bytes, under the same condition. */
  lemma EqualSequenceSameBytes(k: Crypto, ds: seq<Directory>, actions: seq<Action>, m: nat, n: nat)
    requires Run(k, ds, actions) && m <= n < |ds| && Spared(ds, actions, m, n)
    requires Target(ds[m]).Some? && Usable(Target(ds[m]).value)
    ensures Target(ds[n]).Some? && Usable(Target(ds[n]).value)
    ensures Policy(BodyOf(Target(ds[n]).value)) == Policy(BodyOf(Target(ds[m]).value))
    ensures Scope(BodyOf(Target(ds[n]).value)) == Scope(BodyOf(Target(ds[m]).value))
    ensures Sequence(BodyOf(Target(ds[m]).value)) <= Sequence(BodyOf(Target(ds[n]).value))
    ensures Sequence(BodyOf(Target(ds[m]).value)) == Sequence(BodyOf(Target(ds[n]).value)) ==> Target(ds[m]) == Target(ds[n])
  {
    hide Decode, Run, Target;
    TargetNeverGoesBack(k, ds, actions, m, n);
  }

  // ===== Every target was brought by a publisher

  /** A publisher that arrived before moment `n` brought these bytes, and they verified under its pins. */
  ghost predicate Brought(k: Crypto, actions: seq<Action>, n: nat, raw: Bytes) {
    exists j, i, pins, now :: BroughtAt(k, actions, n, raw, j, i, pins, now)
  }

  predicate BroughtAt(k: Crypto, actions: seq<Action>, n: nat, raw: Bytes, j: nat, i: nat, pins: Pins, now: int) {
    && j < n && j < |actions| && actions[j] == Publish(i, Arrive(raw, pins, now)) && Verified(k, raw, pins, now)
  }

  ghost predicate AllBrought(k: Crypto, first: Option<Bytes>, actions: seq<Action>, n: nat, d: Directory) {
    && (forall i :: i in d.publishers ==> Brought(k, actions, n, d.publishers[i].raw))
    && (forall e :: 0 <= e < |Entries(d)| ==> EntryBrought(k, first, actions, n, Content(Entries(d)[e])))
  }

  ghost predicate EntryBrought(k: Crypto, first: Option<Bytes>, actions: seq<Action>, n: nat, c: Option<Bytes>) {
    c == first || (c.Some? && Brought(k, actions, n, c.value))
  }

  lemma BroughtStays(k: Crypto, actions: seq<Action>, n: nat, raw: Bytes)
    requires Brought(k, actions, n, raw)
    ensures Brought(k, actions, n + 1, raw)
  {
    var j, i, pins, now :| BroughtAt(k, actions, n, raw, j, i, pins, now);
    assert BroughtAt(k, actions, n + 1, raw, j, i, pins, now);
  }

  lemma AllBroughtStays(k: Crypto, first: Option<Bytes>, actions: seq<Action>, n: nat, d: Directory)
    requires AllBrought(k, first, actions, n, d)
    ensures AllBrought(k, first, actions, n + 1, d)
  {
    hide Brought, Entries;
    forall i | i in d.publishers
      ensures Brought(k, actions, n + 1, d.publishers[i].raw)
    {
      BroughtStays(k, actions, n, d.publishers[i].raw);
    }
    forall e | 0 <= e < |Entries(d)|
      ensures EntryBrought(k, first, actions, n + 1, Content(Entries(d)[e]))
    {
      var c := Content(Entries(d)[e]);
      assert EntryBrought(k, first, actions, n, c);
      if c != first {
        BroughtStays(k, actions, n, c.value);
      }
    }
  }

  lemma ActBrought(k: Crypto, first: Option<Bytes>, actions: seq<Action>, n: nat, d: Directory, i: nat, e: Event)
    requires Sound(k, d) && Act(k, d, i, e).Some? && AllBrought(k, first, actions, n, d)
    requires n < |actions| && actions[n] == Publish(i, e)
    ensures AllBrought(k, first, actions, n + 1, Act(k, d, i, e).value)
  {
    hide Verified, UpTo, EntriesSound, Brought, Entries;
    AllBroughtStays(k, first, actions, n, d);
    var d' := Act(k, d, i, e).value;
    if e.Arrive? {
      assert Brought(k, actions, n + 1, e.raw) by {
        Arrives(k, actions, n, i, e);
      }
      SameEntries(d, d');
    } else {
      assert PublisherSound(k, d, i);
      if e.Rename? {
        RenamedEntries(d, d', d.temporaries[i]);
      } else if e.Sync? {
        SyncedEntries(d, d');
      } else {
        FlushChangesNothing(d);
        SameEntries(d, d');
      }
    }
  }

  lemma Arrives(k: Crypto, actions: seq<Action>, n: nat, i: nat, e: Event)
    requires e.Arrive? && Verified(k, e.raw, e.pins, e.now) && n < |actions| && actions[n] == Publish(i, e)
    ensures Brought(k, actions, n + 1, e.raw)
  {
    hide Verified;
    assert BroughtAt(k, actions, n + 1, e.raw, n, i, e.pins, e.now);
  }

  lemma SameEntries(d: Directory, d': Directory)
    requires d'.disk == d.disk && d'.renamed == d.renamed
    ensures Entries(d') == Entries(d)
  {
  }

  lemma RenamedEntries(d: Directory, d': Directory, f: File)
    requires d'.disk == d.disk && d'.renamed == d.renamed + [f]
    ensures Entries(d') == Entries(d) + [Some(f)]
  {
  }

  lemma SyncedEntries(d: Directory, d': Directory)
    requires d'.renamed == [] && d'.disk == if d.renamed == [] then d.disk else Some(d.renamed[|d.renamed| - 1])
    ensures Entries(d') == [Entries(d)[|d.renamed|]]
  {
  }

  lemma {:induction false} RunBrought(k: Crypto, ds: seq<Directory>, actions: seq<Action>, n: nat)
    requires Run(k, ds, actions) && n < |ds|
    ensures AllBrought(k, Target(ds[0]), actions, n, ds[n])
  {
    hide Act, Sound, PowerFailure, AllBrought;
    if n == 0 {
      StartBrought(k, actions, ds[0]);
    } else {
      RunBrought(k, ds, actions, n - 1);
      RunSound(k, ds, actions, n - 1);
      assert Step(k, ds[n - 1], actions[n - 1], ds[n]);
      match actions[n - 1]
      case Publish(i, e) => ActBrought(k, Target(ds[0]), actions, n - 1, ds[n - 1], i, e);
      case PowerFails => FailureBrought(k, Target(ds[0]), actions, n - 1, ds[n - 1], ds[n]);
    }
  }

  lemma StartBrought(k: Crypto, actions: seq<Action>, d: Directory)
    requires Start(d)
    ensures AllBrought(k, Target(d), actions, 0, d)
  {
    assert Entries(d) == [d.disk];
  }

  lemma FailureBrought(k: Crypto, first: Option<Bytes>, actions: seq<Action>, n: nat, d: Directory, d': Directory)
    requires Sound(k, d) && PowerFailure(d, d') && AllBrought(k, first, actions, n, d)
    ensures AllBrought(k, first, actions, n + 1, d')
  {
    hide PublisherSound, UpTo, Brought;
    AllBroughtStays(k, first, actions, n, d);
    var e := PowerFailureWhole(d, d');
    assert EntryBrought(k, first, actions, n + 1, Content(Entries(d)[e]));
    assert Entries(d') == [d'.disk];
  }

  /**
   In every run, power failures included, the target is the one found at the start or the whole record
   some publisher brought, signed over its body by at least the threshold of distinct keys among the
   keys that publisher was given, for the policy, scope and sequence it was given, and within its window
   at that publisher's clock.
   */
  lemma TargetWholeAndEndorsed(k: Crypto, ds: seq<Directory>, actions: seq<Action>, n: nat)
    requires Run(k, ds, actions) && n < |ds|
    ensures Target(ds[n]) == Target(ds[0]) || (Target(ds[n]).Some? && exists j, i, pins, now ::
      && BroughtAt(k, actions, n, Target(ds[n]).value, j, i, pins, now)
      && EndorsedBy(k, Target(ds[n]).value, pins) && Timely(Target(ds[n]).value, pins, now))
  {
    hide Run, Act, UpTo, Verified;
    RunBrought(k, ds, actions, n);
    TargetIsLast(ds[n]);
    assert EntryBrought(k, Target(ds[0]), actions, n, Content(Entries(ds[n])[|ds[n].renamed|]));
    if Target(ds[n]) != Target(ds[0]) {
      var raw := Target(ds[n]).value;
      var j, i, pins, now :| BroughtAt(k, actions, n, raw, j, i, pins, now);
      ThresholdOfDistinctKeys(k, raw, pins, now);
      VerifiedTimely(k, raw, pins, now);
      assert EndorsedBy(k, raw, pins) by {
        VerifiedDecodes(k, raw, pins, now);
      }
    }
  }

  /** At least the threshold of distinct pinned keys verify signatures over the record's body. */
  ghost predicate EndorsedBy(k: Crypto, raw: Bytes, pins: Pins) {
    && Decode(raw).Some?
    && var e := Decode(raw).value; var signing := SigningKeys(pins, e.signatures);
    && |signing| >= pins.threshold
    && forall key :: key in signing ==>
         && key in pins.keys
         && exists i :: 0 <= i < |e.signatures| && k.schnorr(key, EvidenceDigest(k, e.body), e.signatures[i].bytes)
  }

  lemma VerifiedDecodes(k: Crypto, raw: Bytes, pins: Pins, now: int)
    requires Verified(k, raw, pins, now)
    ensures Decode(raw).Some?
  {
    hide Decode;
  }
}
