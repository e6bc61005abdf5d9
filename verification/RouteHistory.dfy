/**
 The histories the accounting checker accepts, said without its running state:
 what may happen to a lock, who is paid, and what each ledger adds up
 (scripts/route_economics_oracle.py).
 */
module RouteHistory {
  import opened Wire
  import opened RouteEconomics

  // ===== Histories

  /** One of the first `n` observations is this action on this lock. */
  predicate Happened(os: seq<Observation>, n: nat, id: string, action: string)
    requires n <= |os|
  {
    exists i :: 0 <= i < n && os[i].lock == id && os[i].action == action
  }

  predicate Closed(os: seq<Observation>, n: nat, id: string)
    requires n <= |os|
  {
    Happened(os, n, id, "claim") || Happened(os, n, id, "refund")
  }

  predicate WellFormed(o: Observation) {
    && Identity(o.event) && Identity(o.txid) && Identity(o.effect) && 0 <= o.index < 0x1_0000_0000
    && Units(o.amount) && UnitsOrZero(o.fee) && o.finalized
  }

  /** On the lock's own route, settlement, chain and asset. */
  predicate Placed(p: Pins, l: Lock, o: Observation)
    requires |p.legs| == 2
  {
    && (l.position == 0 || l.position == 1)
    && o.route == p.route && o.settlement == p.legs[l.position].settlement && o.asset == l.asset
    && o.chain == (if l.face == DOM then p.domChain else p.legs[l.position].chain)
  }

  /**
   Deposits go to the lock before it is closed, the principal once; a claim pays the recipient at least the
   minimum and a refund pays the funder, each once, after funding, and the principal less the deducted fee.
   */
  predicate Permitted(os: seq<Observation>, i: nat, l: Lock)
    requires i < |os|
  {
    var o := os[i];
    && !Closed(os, i, l.id)
    && (o.action == "fund" || o.action == "surplus" || o.action == "claim" || o.action == "refund")
    && (o.action == "fund" ==> !Happened(os, i, l.id, "fund") && o.amount == l.principal)
    && (o.action == "fund" || o.action == "surplus" ==> o.recipient == l.id && o.fee == 0)
    && (o.action == "claim" || o.action == "refund" ==>
         Happened(os, i, l.id, "fund") && o.fee <= l.maximumFee && o.amount + o.fee == l.principal)
    && (o.action == "claim" ==> o.recipient == l.recipient && o.amount >= l.minimum)
    && (o.action == "refund" ==> o.recipient == l.funder)
  }

  predicate Entry(p: Pins, os: seq<Observation>, i: nat, j: nat)
    requires |p.legs| == 2 && i < |os|
  {
    && j < |p.locks| && p.locks[j].id == os[i].lock
    && WellFormed(os[i]) && Placed(p, p.locks[j], os[i]) && Permitted(os, i, p.locks[j])
  }

  /** Some lock accounts for an observation. */
  ghost predicate HasEntry(p: Pins, os: seq<Observation>, i: nat)
    requires |p.legs| == 2 && i < |os|
  {
    exists j: nat :: Entry(p, os, i, j)
  }

  ghost predicate History(p: Pins, os: seq<Observation>)
    requires |p.legs| == 2
  {
    AllDistinct(os) && forall i :: 0 <= i < |os| ==> HasEntry(p, os, i)
  }

  // ===== Sums over a history

  function Deposited(os: seq<Observation>, key: Key): int {
    if os == [] then 0
    else
      var o := os[|os| - 1];
      Deposited(os[..|os| - 1], key)
      + if (o.chain, o.asset) == key && (o.action == "fund" || o.action == "surplus") then o.amount else 0
  }

  function PaidOut(os: seq<Observation>, key: Key): int {
    if os == [] then 0
    else
      var o := os[|os| - 1];
      PaidOut(os[..|os| - 1], key)
      + if (o.chain, o.asset) == key && (o.action == "claim" || o.action == "refund") then o.amount else 0
  }

  function FeesTaken(os: seq<Observation>, key: Key): int {
    if os == [] then 0
    else
      var o := os[|os| - 1];
      FeesTaken(os[..|os| - 1], key)
      + if (o.chain, o.asset) == key && (o.action == "claim" || o.action == "refund") then o.fee else 0
  }

  function LeftOver(os: seq<Observation>, key: Key): int {
    if os == [] then 0
    else
      var o := os[|os| - 1];
      LeftOver(os[..|os| - 1], key) + if (o.chain, o.asset) == key && o.action == "surplus" then o.amount else 0
  }

  // ===== The running state follows the history

  lemma HappenedStep(os: seq<Observation>, id: string, action: string)
    requires os != []
    ensures var n := |os| - 1;
      Happened(os, |os|, id, action) <==> Happened(os[..n], n, id, action) || (os[n].lock == id && os[n].action == action)
  {
    var rest := os[..|os| - 1];
    assert forall i :: 0 <= i < |rest| ==> rest[i] == os[i];
  }

  lemma HappenedPrefix(os: seq<Observation>, n: nat, id: string, action: string)
    requires n < |os|
    ensures Happened(os, n, id, action) <==> Happened(os[..n], n, id, action)
  {
    assert forall i :: 0 <= i < n ==> os[..n][i] == os[i];
  }

  /** What the state of a lock says about the past. */
  predicate StateFollows(os: seq<Observation>, l: Lock, s: LockState) {
    && (s.funded <==> Happened(os, |os|, l.id, "fund"))
    && (s.terminal == Some("claim") <==> Happened(os, |os|, l.id, "claim"))
    && (s.terminal == Some("refund") <==> Happened(os, |os|, l.id, "refund"))
    && (s.terminal.Some? <==> Closed(os, |os|, l.id))
  }

  predicate Follows(p: Pins, os: seq<Observation>, b: Books) {
    forall j :: 0 <= j < |p.locks| ==> p.locks[j].id in b.locks && StateFollows(os, p.locks[j], b.locks[p.locks[j].id])
  }

  /** What has been used up is what occurred. */
  ghost predicate Used(os: seq<Observation>, b: Books) {
    && (forall e :: e in b.events <==> exists i :: 0 <= i < |os| && os[i].event == e)
    && (forall c :: c in b.consumed <==> exists i :: 0 <= i < |os| && (os[i].chain, os[i].txid, os[i].index) == c)
    && (forall f :: f in b.effects <==> exists i :: 0 <= i < |os| && (os[i].lock, os[i].effect) == f)
  }

  /** The last observation repeats nothing. */
  predicate LastIsNew(os: seq<Observation>)
    requires os != []
  {
    forall i :: 0 <= i < |os| - 1 ==>
      var a, z := os[i], os[|os| - 1];
      a.event != z.event && (a.chain, a.txid, a.index) != (z.chain, z.txid, z.index) && (a.lock, a.effect) != (z.lock, z.effect)
  }

  lemma FindsLock(p: Pins, id: string, j: nat)
    requires PinsValid(p) && j < |p.locks| && p.locks[j].id == id
    ensures FindLock(p.locks, id) == Some(p.locks[j])
  {
    hide PinsValid;
    FindLockExact(p.locks, id);
    var l := FindLock(p.locks, id).value;
    var k :| 0 <= k < |p.locks| && p.locks[k] == l;
    OtherIds(p, j, k);
  }

  lemma LockPosition(p: Pins, j: nat)
    requires PinsValid(p) && j < |p.locks|
    ensures (p.locks[j].position == 0 || p.locks[j].position == 1) && p.locks[j] in p.locks && |p.legs| == 2
  {
    assert LockValid(p, p.locks[j]);
  }

  /** Admission asks for a well-formed observation in its place that repeats nothing. */
  lemma AdmitExact(p: Pins, b: Books, os: seq<Observation>, j: nat)
    requires PinsValid(p) && os != [] && Used(os[..|os| - 1], b)
    requires j < |p.locks| && p.locks[j].id == os[|os| - 1].lock
    ensures |p.legs| == 2
    ensures var o := os[|os| - 1];
      Admit(p, b, o) == Ok(p.locks[j]) <==>
        WellFormed(o) && Placed(p, p.locks[j], o) && LastIsNew(os) && KnownAction(o.action)
    ensures Admit(p, b, os[|os| - 1]).Ok? ==> Admit(p, b, os[|os| - 1]) == Ok(p.locks[j])
  {
    hide PinsValid, Identity, Units, UnitsOrZero;
    LockPosition(p, j);
    FindsLock(p, os[|os| - 1].lock, j);
    NewExact(os, b);
  }

  lemma NewExact(os: seq<Observation>, b: Books)
    requires os != [] && Used(os[..|os| - 1], b)
    ensures var o := os[|os| - 1];
      LastIsNew(os) <==> o.event !in b.events && (o.chain, o.txid, o.index) !in b.consumed && (o.lock, o.effect) !in b.effects
  {
    var rest := os[..|os| - 1];
    assert forall i :: 0 <= i < |rest| ==> rest[i] == os[i];
  }

  /** Booking permits exactly what the history permits. */
  lemma BookExact(l: Lock, s: LockState, t: Ledger, os: seq<Observation>)
    requires os != [] && StateSound(l, s) && KnownAction(os[|os| - 1].action)
    requires StateFollows(os[..|os| - 1], l, s)
    ensures Book(l, s, t, os[|os| - 1]).Ok? <==> Permitted(os, |os| - 1, l)
  {
    hide Happened;
    var n := |os| - 1;
    HappenedPrefix(os, n, l.id, "fund");
    HappenedPrefix(os, n, l.id, "claim");
    HappenedPrefix(os, n, l.id, "refund");
  }

  lemma BookFollows(l: Lock, s: LockState, t: Ledger, os: seq<Observation>)
    requires os != [] && StateSound(l, s) && KnownAction(os[|os| - 1].action) && os[|os| - 1].lock == l.id
    requires StateFollows(os[..|os| - 1], l, s) && Book(l, s, t, os[|os| - 1]).Ok?
    ensures StateFollows(os, l, Book(l, s, t, os[|os| - 1]).value.0)
  {
    hide Happened;
    HappenedStep(os, l.id, "fund");
    HappenedStep(os, l.id, "claim");
    HappenedStep(os, l.id, "refund");
  }

  lemma OthersFollow(l: Lock, s: LockState, os: seq<Observation>)
    requires os != [] && os[|os| - 1].lock != l.id && StateFollows(os[..|os| - 1], l, s)
    ensures StateFollows(os, l, s)
  {
    hide Happened;
    HappenedStep(os, l.id, "fund");
    HappenedStep(os, l.id, "claim");
    HappenedStep(os, l.id, "refund");
  }

  lemma UsedStep(os: seq<Observation>, b: Books, b': Books)
    requires os != [] && Used(os[..|os| - 1], b)
    requires var o := os[|os| - 1];
      && b'.events == b.events + {o.event} && b'.consumed == b.consumed + {(o.chain, o.txid, o.index)}
      && b'.effects == b.effects + {(o.lock, o.effect)}
    ensures Used(os, b')
  {
    var n := |os| - 1;
    var rest := os[..n];
    assert forall i :: 0 <= i < n ==> rest[i] == os[i];
    forall e
      ensures e in b'.events <==> exists i :: 0 <= i < |os| && os[i].event == e
    {
      if e in b.events {
        var i :| 0 <= i < |rest| && rest[i].event == e;
        assert os[i].event == e;
      }
    }
    forall c
      ensures c in b'.consumed <==> exists i :: 0 <= i < |os| && (os[i].chain, os[i].txid, os[i].index) == c
    {
      if c in b.consumed {
        var i :| 0 <= i < |rest| && (rest[i].chain, rest[i].txid, rest[i].index) == c;
        assert (os[i].chain, os[i].txid, os[i].index) == c;
      }
    }
    forall f
      ensures f in b'.effects <==> exists i :: 0 <= i < |os| && (os[i].lock, os[i].effect) == f
    {
      if f in b.effects {
        var i :| 0 <= i < |rest| && (rest[i].lock, rest[i].effect) == f;
        assert (os[i].lock, os[i].effect) == f;
      }
    }
  }

  /** The running state after every accepted history says what happened in it. */
  lemma {:induction false} StatesFollow(p: Pins, os: seq<Observation>)
    requires PinsValid(p) && ObserveAll(p, os).Ok?
    ensures Follows(p, os, ObserveAll(p, os).value) && Used(os, ObserveAll(p, os).value)
  {
    hide PinsValid, Admit, Book, KeyOf, StateFollows, Used, KnownAction, Units, UnitsOrZero, StateSound;
    if os == [] {
      OpeningFollows(p);
    } else {
      var rest, o := os[..|os| - 1], os[|os| - 1];
      StatesFollow(p, rest);
      ObserveAllSound(p, rest);
      var b, b' := ObserveAll(p, rest).value, ObserveAll(p, os).value;
      AdmitsKnownLock(p, b, o);
      UsedStep(os, b, b');
      var l := Admit(p, b, o).value;
      forall j | 0 <= j < |p.locks|
        ensures p.locks[j].id in b'.locks && StateFollows(os, p.locks[j], b'.locks[p.locks[j].id])
      {
        var k :| 0 <= k < |p.locks| && p.locks[k] == l;
        OtherIds(p, j, k);
        if j == k {
          BookFollows(l, b.locks[l.id], LedgerAt(b.totals, KeyOf(p, l)), os);
        } else {
          OthersFollow(p.locks[j], b.locks[p.locks[j].id], os);
        }
      }
    }
  }

  lemma OpeningFollows(p: Pins)
    ensures Follows(p, [], Opening(p.locks)) && Used([], Opening(p.locks))
  {
  }

  // ===== Accepted histories

  lemma DistinctStep(os: seq<Observation>)
    requires os != []
    ensures AllDistinct(os) <==> AllDistinct(os[..|os| - 1]) && LastIsNew(os)
  {
    var rest := os[..|os| - 1];
    assert forall i :: 0 <= i < |rest| ==> rest[i] == os[i];
  }

  lemma EntryPrefix(p: Pins, os: seq<Observation>, i: nat, j: nat)
    requires |p.legs| == 2 && i < |os| - 1
    ensures Entry(p, os, i, j) <==> Entry(p, os[..|os| - 1], i, j)
  {
    hide Happened, WellFormed, Placed;
    var rest := os[..|os| - 1];
    assert rest[i] == os[i];
    if j < |p.locks| {
      var id := p.locks[j].id;
      assert rest[..i] == os[..i];
      HappenedPrefix(os, i, id, "fund");
      HappenedPrefix(os, i, id, "claim");
      HappenedPrefix(os, i, id, "refund");
      HappenedPrefix(rest, i, id, "fund");
      HappenedPrefix(rest, i, id, "claim");
      HappenedPrefix(rest, i, id, "refund");
    }
  }

  lemma HistoryStep(p: Pins, os: seq<Observation>)
    requires |p.legs| == 2 && os != []
    ensures History(p, os) <==> History(p, os[..|os| - 1]) && LastIsNew(os) && HasEntry(p, os, |os| - 1)
  {
    hide Entry, LastIsNew, AllDistinct;
    var rest := os[..|os| - 1];
    DistinctStep(os);
    forall i, j | 0 <= i < |rest|
      ensures Entry(p, os, i, j) <==> Entry(p, rest, i, j)
    {
      EntryPrefix(p, os, i, j);
    }
    assert forall i :: 0 <= i < |rest| ==> (HasEntry(p, os, i) <==> HasEntry(p, rest, i));
  }

  /** One more observation is accepted exactly when it is permitted after the history so far. */
  lemma ObserveExact(p: Pins, os: seq<Observation>)
    requires PinsValid(p) && os != [] && ObserveAll(p, os[..|os| - 1]).Ok?
    ensures |p.legs| == 2
    ensures ObserveAll(p, os).Ok? <==> LastIsNew(os) && HasEntry(p, os, |os| - 1)
  {
    hide PinsValid, Admit, Book, KeyOf, StateFollows, Used, LastIsNew, WellFormed, Placed, Permitted, Units, UnitsOrZero, StateSound;
    var rest, o := os[..|os| - 1], os[|os| - 1];
    var b := ObserveAll(p, rest).value;
    StatesFollow(p, rest);
    ObserveAllSound(p, rest);
    TwoLegs(p);
    if Admit(p, b, o).Ok? {
      AdmitsKnownLock(p, b, o);
      var j :| 0 <= j < |p.locks| && p.locks[j] == Admit(p, b, o).value;
      AdmitExact(p, b, os, j);
      BookExact(p.locks[j], b.locks[o.lock], LedgerAt(b.totals, KeyOf(p, p.locks[j])), os);
      if ObserveAll(p, os).Ok? {
        assert Entry(p, os, |os| - 1, j);
      }
      if HasEntry(p, os, |os| - 1) {
        var k: nat :| Entry(p, os, |os| - 1, k);
        OtherIds(p, j, k);
      }
    } else if LastIsNew(os) && HasEntry(p, os, |os| - 1) {
      var j: nat :| Entry(p, os, |os| - 1, j);
      AdmitExact(p, b, os, j);
      PermittedKnown(os, |os| - 1, p.locks[j]);
    }
  }

  lemma PermittedKnown(os: seq<Observation>, i: nat, l: Lock)
    requires i < |os|
    ensures Permitted(os, i, l) ==> KnownAction(os[i].action)
  {
  }

  lemma TwoLegs(p: Pins)
    requires PinsValid(p)
    ensures |p.legs| == 2
  {
  }

  /** The checker accepts exactly the permitted histories. */
  lemma {:induction false} HistoryExact(p: Pins, os: seq<Observation>)
    requires PinsValid(p)
    ensures |p.legs| == 2
    ensures ObserveAll(p, os).Ok? <==> History(p, os)
  {
    hide PinsValid, Observe, Entry, LastIsNew;
    TwoLegs(p);
    if os != [] {
      HistoryExact(p, os[..|os| - 1]);
      HistoryStep(p, os);
      if ObserveAll(p, os[..|os| - 1]).Ok? {
        ObserveExact(p, os);
      }
    }
  }

  /** Every claim that is accepted pays the lock's recipient, and every refund its funder. */
  lemma PaysTheRightParty(p: Pins, os: seq<Observation>, i: nat, j: nat)
    requires PinsValid(p) && ObserveAll(p, os).Ok? && i < |os| && j < |p.locks| && p.locks[j].id == os[i].lock
    ensures os[i].action == "claim" ==> os[i].recipient == p.locks[j].recipient && os[i].amount >= p.locks[j].minimum
    ensures os[i].action == "refund" ==> os[i].recipient == p.locks[j].funder
    ensures os[i].action == "fund" || os[i].action == "surplus" ==> os[i].recipient == p.locks[j].id && os[i].fee == 0
    ensures os[i].action == "claim" || os[i].action == "refund" ==>
      os[i].amount + os[i].fee == p.locks[j].principal && os[i].fee <= p.locks[j].maximumFee
  {
    hide PinsValid, ObserveAll, WellFormed, Placed, AllDistinct, Happened;
    HistoryExact(p, os);
    assert HasEntry(p, os, i);
    var k: nat :| Entry(p, os, i, k);
    OtherIds(p, j, k);
  }

  // ===== Ledgers

  /** Each ledger adds up deposits, payouts and deducted fees of its chain and asset, each by itself. */
  lemma {:induction false} LedgersAddUp(p: Pins, os: seq<Observation>, key: Key)
    requires PinsValid(p) && ObserveAll(p, os).Ok?
    ensures LedgerAt(ObserveAll(p, os).value.totals, key) == Ledger(Deposited(os, key), PaidOut(os, key), FeesTaken(os, key), 0)
  {
    hide PinsValid, Admit, Book, KeyOf, KnownAction, Units, UnitsOrZero;
    if os != [] {
      var rest, o := os[..|os| - 1], os[|os| - 1];
      LedgersAddUp(p, rest, key);
      var b := ObserveAll(p, rest).value;
      AdmitsKnownLock(p, b, o);
      AdmittedKey(p, b, o);
      var l := Admit(p, b, o).value;
      BookAdds(l, b.locks[l.id], LedgerAt(b.totals, KeyOf(p, l)), o);
    }
  }

  lemma AdmittedKey(p: Pins, b: Books, o: Observation)
    requires PinsValid(p) && Admit(p, b, o).Ok?
    ensures Admit(p, b, o).value in p.locks && KeyOf(p, Admit(p, b, o).value) == (o.chain, o.asset)
  {
    hide PinsValid, Identity, Units, UnitsOrZero;
    FindLockExact(p.locks, o.lock);
  }

  lemma BookAdds(l: Lock, s: LockState, t: Ledger, o: Observation)
    requires KnownAction(o.action) && Book(l, s, t, o).Ok?
    ensures var t' := Book(l, s, t, o).value.1;
      && t'.inn == t.inn + (if o.action == "fund" || o.action == "surplus" then o.amount else 0)
      && t'.out == t.out + (if o.action == "claim" || o.action == "refund" then o.amount else 0)
      && t'.fees == t.fees + (if o.action == "claim" || o.action == "refund" then o.fee else 0)
      && t'.residual == t.residual
  {
  }

  /** The surplus of the locks of a key is what was left over on it. */
  lemma {:induction false} SurplusAddsUp(p: Pins, os: seq<Observation>, key: Key)
    requires PinsValid(p) && ObserveAll(p, os).Ok?
    ensures StatesSound(p, ObserveAll(p, os).value.locks) && |p.locks| == 4
    ensures Residual(p, ObserveAll(p, os).value.locks, key, 4) == LeftOver(os, key)
  {
    hide PinsValid, Admit, Book, KeyOf, KnownAction, Units, UnitsOrZero, StateSound, Residual;
    ObserveAllSound(p, os);
    FourLocks(p);
    if os == [] {
      NothingLeft(p, key, 4);
    } else {
      var rest, o := os[..|os| - 1], os[|os| - 1];
      SurplusAddsUp(p, rest, key);
      ObserveAllSound(p, rest);
      var b := ObserveAll(p, rest).value;
      AdmitsKnownLock(p, b, o);
      AdmittedKey(p, b, o);
      var l := Admit(p, b, o).value;
      var j :| 0 <= j < |p.locks| && p.locks[j] == l;
      var s := Book(l, b.locks[l.id], LedgerAt(b.totals, KeyOf(p, l)), o).value.0;
      BookLeaves(l, b.locks[l.id], LedgerAt(b.totals, KeyOf(p, l)), o);
      assert ObserveAll(p, os).value.locks == b.locks[l.id := s];
      ResidualMoves(p, b.locks, j, s, key, 4);
    }
  }

  lemma {:induction false} NothingLeft(p: Pins, key: Key, n: nat)
    requires PinsValid(p) && n <= |p.locks| && StatesSound(p, Opening(p.locks).locks)
    ensures Residual(p, Opening(p.locks).locks, key, n) == 0
  {
    hide PinsValid, KeyOf, StateSound;
    if n > 0 {
      NothingLeft(p, key, n - 1);
    }
  }

  lemma BookLeaves(l: Lock, s: LockState, t: Ledger, o: Observation)
    requires KnownAction(o.action) && Book(l, s, t, o).Ok?
    ensures Book(l, s, t, o).value.0.surplus == s.surplus + if o.action == "surplus" then o.amount else 0
  {
  }

  lemma {:induction false} ResidualMoves(p: Pins, ls: map<string, LockState>, j: nat, s: LockState, key: Key, n: nat)
    requires PinsValid(p) && StatesSound(p, ls) && j < |p.locks| && n <= |p.locks|
    requires StatesSound(p, ls[p.locks[j].id := s])
    ensures Residual(p, ls[p.locks[j].id := s], key, n) == Residual(p, ls, key, n)
      + if j < n && KeyOf(p, p.locks[j]) == key then s.surplus - ls[p.locks[j].id].surplus else 0
  {
    hide PinsValid, StateSound, KeyOf;
    if n > 0 {
      ResidualMoves(p, ls, j, s, key, n - 1);
      OtherIds(p, j, n - 1);
    }
  }

  // ===== Outcomes

  /** Settled: all funded and claimed; compensated: something funded, and exactly that refunded; aborted: nothing. */
  predicate OutcomeOf(p: Pins, os: seq<Observation>, outcome: string) {
    if outcome == "settled" then
      forall j :: 0 <= j < |p.locks| ==>
        Happened(os, |os|, p.locks[j].id, "fund") && Happened(os, |os|, p.locks[j].id, "claim")
    else if outcome == "compensated" then
      && (exists j :: 0 <= j < |p.locks| && Happened(os, |os|, p.locks[j].id, "fund"))
      && (forall j :: 0 <= j < |p.locks| ==>
           && !Happened(os, |os|, p.locks[j].id, "claim")
           && (Happened(os, |os|, p.locks[j].id, "refund") <==> Happened(os, |os|, p.locks[j].id, "fund")))
    else
      forall j :: 0 <= j < |p.locks| ==> !Happened(os, |os|, p.locks[j].id, "fund") && !Closed(os, |os|, p.locks[j].id)
  }

  lemma OutcomeExact(p: Pins, os: seq<Observation>, outcome: string)
    requires PinsValid(p) && ObserveAll(p, os).Ok?
    ensures StatesSound(p, ObserveAll(p, os).value.locks)
    ensures OutcomeHolds(p, ObserveAll(p, os).value.locks, outcome) <==> OutcomeOf(p, os, outcome)
  {
    hide PinsValid, ObserveAll, Happened, Used, LedgerSound, KeyOf, StateSound, StateFollows;
    ObserveAllSound(p, os);
    StatesFollow(p, os);
    var ls := ObserveAll(p, os).value.locks;
    forall j | 0 <= j < |p.locks|
      ensures var s, id := ls[p.locks[j].id], p.locks[j].id;
        && (s.funded <==> Happened(os, |os|, id, "fund")) && (s.terminal == Some("claim") <==> Happened(os, |os|, id, "claim"))
        && (s.terminal == Some("refund") <==> Happened(os, |os|, id, "refund")) && (s.terminal.Some? <==> Closed(os, |os|, id))
    {
      LockMeans(os, p.locks[j], ls[p.locks[j].id]);
    }
  }

  lemma LockMeans(os: seq<Observation>, l: Lock, s: LockState)
    requires StateFollows(os, l, s)
    ensures (s.funded <==> Happened(os, |os|, l.id, "fund")) && (s.terminal == Some("claim") <==> Happened(os, |os|, l.id, "claim"))
    ensures (s.terminal == Some("refund") <==> Happened(os, |os|, l.id, "refund")) && (s.terminal.Some? <==> Closed(os, |os|, l.id))
  {
  }
}
