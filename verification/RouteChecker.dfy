/**
 The accounting checker as it runs: loops over locks and observations, the
 outcome rule and the closing ledger check
 (scripts/route_economics_oracle.py).
 */
module RouteChecker {
  import opened Wire
  import opened RouteEconomics
  import opened RouteHistory

  datatype Report = Report(outcome: string, observations: nat, totals: map<Key, Ledger>)

  predicate HeaderValid(p: Pins, w: Witness) {
    && w.version == 6 && w.route == p.route
    && (w.outcome == "settled" || w.outcome == "compensated" || w.outcome == "aborted")
    && |w.observations| <= MAX_OBSERVATIONS
  }

  lemma {:induction false} RefusalPersists(p: Pins, os: seq<Observation>, i: nat)
    requires PinsValid(p) && i <= |os| && ObserveAll(p, os[..i]).Err?
    ensures ObserveAll(p, os) == ObserveAll(p, os[..i])
    decreases |os| - i
  {
    hide PinsValid, Observe;
    if i < |os| {
      assert os[..i + 1][..i] == os[..i];
      RefusalPersists(p, os, i + 1);
    } else {
      assert os[..i] == os;
    }
  }

  /** Folds the observations into lock states and ledgers. */
  method Accumulate(p: Pins, os: seq<Observation>) returns (r: Result<Books, Refusal>)
    requires PinsValid(p)
    ensures r == ObserveAll(p, os)
  {
    hide PinsValid, Identity, Admit, Book, KeyOf;
    var opening := Opening(p.locks);
    var locks, events, effects, consumed, totals :=
      opening.locks, opening.events, opening.effects, opening.consumed, opening.totals;
    for i := 0 to |os|
      invariant ObserveAll(p, os[..i]) == Ok(Books(locks, events, effects, consumed, totals))
    {
      var o := os[i];
      ghost var b := Books(locks, events, effects, consumed, totals);
      assert os[..i + 1][..i] == os[..i];
      var admitted := Admit(p, Books(locks, events, effects, consumed, totals), o);
      if admitted.Err? {
        RefusalPersists(p, os, i + 1);
        return Err(admitted.error);
      }
      var l := admitted.value;
      AdmitsKnownLock(p, b, o);
      var key := KeyOf(p, l);
      var booked := Book(l, locks[l.id], LedgerAt(totals, key), o);
      if booked.Err? {
        RefusalPersists(p, os, i + 1);
        return Err(booked.error);
      }
      locks, totals := locks[l.id := booked.value.0], totals[key := booked.value.1];
      events, effects := events + {o.event}, effects + {(o.lock, o.effect)};
      consumed := consumed + {(o.chain, o.txid, o.index)};
    }
    assert os[..|os|] == os;
    r := Ok(Books(locks, events, effects, consumed, totals));
  }

  /** Moves every lock's surplus to the residual column of its ledger. */
  method MoveSurplus(p: Pins, b: Books) returns (totals: map<Key, Ledger>)
    requires PinsValid(p) && BooksSound(p, b)
    ensures totals == WithResiduals(p, b.locks, b.totals, |p.locks|)
  {
    hide PinsValid, KeyOf, StateSound, Inflow, Outflow;
    totals := b.totals;
    for i := 0 to |p.locks|
      invariant totals == WithResiduals(p, b.locks, b.totals, i)
    {
      var l := p.locks[i];
      var s := b.locks[l.id].surplus;
      if s != 0 {
        var t := LedgerAt(totals, KeyOf(p, l));
        totals := totals[KeyOf(p, l) := t.(residual := t.residual + s)];
      }
    }
  }

  method AllBalanced(totals: map<Key, Ledger>) returns (ok: bool)
    ensures ok <==> forall key :: key in totals ==> Balanced(totals[key])
  {
    var left := totals.Keys;
    ok := true;
    while left != {}
      invariant left <= totals.Keys
      invariant ok <==> forall key :: key in totals && key !in left ==> Balanced(totals[key])
      decreases |left|
    {
      var key :| key in left;
      ok := ok && Balanced(totals[key]);
      left := left - {key};
    }
  }

  method CheckOutcome(p: Pins, b: Books, outcome: string) returns (r: Result<(), Refusal>)
    requires PinsValid(p) && BooksSound(p, b)
    ensures r.Ok? <==> OutcomeHolds(p, b.locks, outcome)
    ensures r.Err? ==> r.error != LedgerNotConserved && r.error != PayoutBelowMinimum
  {
    hide PinsValid, StateSound, LedgerSound, KeyOf;
    var allClaimed, anyFunded, allRefunded, noneCommitted := true, false, true, true;
    for i := 0 to |p.locks|
      invariant allClaimed <==> forall k :: 0 <= k < i ==>
        b.locks[p.locks[k].id].funded && b.locks[p.locks[k].id].terminal == Some("claim")
      invariant anyFunded <==> exists k :: 0 <= k < i && b.locks[p.locks[k].id].funded
      invariant allRefunded <==> forall k :: 0 <= k < i ==>
        b.locks[p.locks[k].id].terminal == if b.locks[p.locks[k].id].funded then Some("refund") else None
      invariant noneCommitted <==> forall k :: 0 <= k < i ==>
        !b.locks[p.locks[k].id].funded && b.locks[p.locks[k].id].terminal.None?
    {
      var s := b.locks[p.locks[i].id];
      allClaimed := allClaimed && s.funded && s.terminal == Some("claim");
      anyFunded := anyFunded || s.funded;
      allRefunded := allRefunded && s.terminal == if s.funded then Some("refund") else None;
      noneCommitted := noneCommitted && !s.funded && s.terminal.None?;
    }
    if outcome == "settled" {
      r := if allClaimed then Ok(()) else Err(IncompleteLocks);
    } else if outcome == "compensated" {
      r := if !anyFunded then Err(EmptyCompensation) else if allRefunded then Ok(()) else Err(PrincipalNotRefunded);
    } else {
      r := if noneCommitted then Ok(()) else Err(CommittedPrincipal);
    }
  }

  /** The ledgers of a history: deposits, payouts, deducted fees and left-over surplus, each summed by itself. */
  ghost predicate AddsUp(os: seq<Observation>, totals: map<Key, Ledger>) {
    && (forall key :: key in totals ==>
         totals[key] == Ledger(Deposited(os, key), PaidOut(os, key), FeesTaken(os, key), LeftOver(os, key)))
    && (forall i :: 0 <= i < |os| ==> (os[i].chain, os[i].asset) in totals)
  }

  lemma TotalsAddUp(p: Pins, os: seq<Observation>)
    requires PinsValid(p) && ObserveAll(p, os).Ok?
    ensures StatesSound(p, ObserveAll(p, os).value.locks)
    ensures AddsUp(os, WithResiduals(p, ObserveAll(p, os).value.locks, ObserveAll(p, os).value.totals, |p.locks|))
  {
    hide PinsValid, ObserveAll, WithResiduals, KeyOf, StateSound, Residual, LedgerSound, Deposited, PaidOut, FeesTaken, LeftOver;
    ObserveAllSound(p, os);
    FourLocks(p);
    var b := ObserveAll(p, os).value;
    forall key
      ensures key in WithResiduals(p, b.locks, b.totals, 4) <==> key in b.totals
      ensures key in b.totals ==>
        WithResiduals(p, b.locks, b.totals, 4)[key]
          == Ledger(Deposited(os, key), PaidOut(os, key), FeesTaken(os, key), LeftOver(os, key))
    {
      ResidualsMoved(p, b, key, 4);
      LedgersAddUp(p, os, key);
      SurplusAddsUp(p, os, key);
    }
    KeysBooked(p, os);
  }

  lemma {:induction false} KeysBooked(p: Pins, os: seq<Observation>)
    requires PinsValid(p) && ObserveAll(p, os).Ok?
    ensures forall i :: 0 <= i < |os| ==> (os[i].chain, os[i].asset) in ObserveAll(p, os).value.totals
  {
    hide PinsValid, Admit, Book, KeyOf;
    if os != [] {
      var rest := os[..|os| - 1];
      KeysBooked(p, rest);
      AdmittedKey(p, ObserveAll(p, rest).value, os[|os| - 1]);
      assert forall i :: 0 <= i < |rest| ==> os[i] == rest[i];
    }
  }

  /**
   Accepts exactly valid pins, headers, permitted histories and matching outcomes, and reports the sums of
   the history; neither the closing ledger check nor the minimum-payout check is ever the one that refuses.
   */
  method Verify(p: Pins, w: Witness) returns (r: Result<Report, Refusal>)
    ensures r.Ok? <==>
      PinsValid(p) && HeaderValid(p, w) && |p.legs| == 2 && History(p, w.observations) && OutcomeOf(p, w.observations, w.outcome)
    ensures r.Err? ==> r.error != LedgerNotConserved && r.error != PayoutBelowMinimum
    ensures r.Ok? ==>
      && r.value.outcome == w.outcome && r.value.observations == |w.observations|
      && AddsUp(w.observations, r.value.totals)
      && forall key :: key in r.value.totals ==> Balanced(r.value.totals[key])
  {
    hide PinsValid, ObserveAll, OutcomeHolds, OutcomeOf, History, AddsUp, StatesSound, WithResiduals, KeyOf, LedgerSound;
    var _ :- CheckPins(p);
    if w.version != 6 { return Err(InvalidVersion); }
    if w.route != p.route { return Err(RouteTransplant); }
    if w.outcome != "settled" && w.outcome != "compensated" && w.outcome != "aborted" { return Err(NonterminalRoute); }
    if |w.observations| > MAX_OBSERVATIONS { return Err(UnboundedObservations); }
    ObservationsNeverBelowMinimum(p, w.observations);
    HistoryExact(p, w.observations);
    var b :- Accumulate(p, w.observations);
    ObserveAllSound(p, w.observations);
    OutcomeExact(p, w.observations, w.outcome);
    TotalsAddUp(p, w.observations);
    var _ :- CheckOutcome(p, b, w.outcome);
    var totals := MoveSurplus(p, b);
    forall key | key in totals
      ensures Balanced(totals[key])
    {
      LedgersBalance(p, b, w.outcome, key);
    }
    var ok := AllBalanced(totals);
    r := if ok then Ok(Report(w.outcome, |w.observations|, totals)) else Err(LedgerNotConserved);
  }

  /**
   What a settled route means: every lock was funded with its principal, and then, once, its recipient, who
   is not its funder, got the principal less the deducted fee, at least the minimum, on the lock's own chain.
   */
  lemma SettledMeans(p: Pins, os: seq<Observation>, j: nat) returns (i: nat, k: nat)
    requires PinsValid(p) && |p.legs| == 2 && History(p, os) && OutcomeOf(p, os, "settled") && j < |p.locks|
    ensures i < k < |os| && os[i].lock == os[k].lock == p.locks[j].id && os[i].action == "fund" && os[k].action == "claim"
    ensures os[i].amount == p.locks[j].principal == os[k].amount + os[k].fee && os[k].amount >= p.locks[j].minimum >= 1
    ensures os[k].recipient == p.locks[j].recipient != p.locks[j].funder
    ensures os[k].chain == p.domChain <==> p.locks[j].face == DOM
  {
    hide WellFormed, AllDistinct;
    assert Happened(os, |os|, p.locks[j].id, "claim");
    k :| 0 <= k < |os| && os[k].lock == p.locks[j].id && os[k].action == "claim";
    assert HasEntry(p, os, k);
    var e: nat :| Entry(p, os, k, e);
    OtherIds(p, j, e);
    i :| 0 <= i < k && os[i].lock == p.locks[j].id && os[i].action == "fund";
    assert HasEntry(p, os, i);
    var f: nat :| Entry(p, os, i, f);
    OtherIds(p, j, f);
    assert LockValid(p, p.locks[j]);
  }

  /** What a compensated route means: whoever funded a lock got the principal less the deducted fee back, and nobody else anything. */
  lemma CompensatedMeans(p: Pins, os: seq<Observation>, k: nat, j: nat)
    requires PinsValid(p) && |p.legs| == 2 && History(p, os) && OutcomeOf(p, os, "compensated")
    requires k < |os| && j < |p.locks| && os[k].lock == p.locks[j].id && os[k].action != "fund" && os[k].action != "surplus"
    ensures os[k].action == "refund" && os[k].recipient == p.locks[j].funder != p.locks[j].recipient
    ensures os[k].amount + os[k].fee == p.locks[j].principal && os[k].fee <= p.locks[j].maximumFee < p.locks[j].principal
  {
    hide WellFormed, AllDistinct;
    assert HasEntry(p, os, k);
    var e: nat :| Entry(p, os, k, e);
    OtherIds(p, j, e);
    assert !Happened(os, |os|, p.locks[j].id, "claim");
    assert LockValid(p, p.locks[j]);
  }

  /** What accepted pins promise: two settlements, a hub chain apart from both legs, and four locks apart from each other. */
  lemma PinsMean(p: Pins)
    requires PinsValid(p)
    ensures |p.legs| == 2 && p.legs[0].settlement != p.legs[1].settlement && p.legs[0].face != DOM && p.legs[1].face != DOM
    ensures p.domChain != p.legs[0].chain && p.domChain != p.legs[1].chain
    ensures p.legs[0].chain == p.legs[1].chain ==> p.legs[0].face == p.legs[1].face
    ensures |p.locks| == 4 && forall i, j :: 0 <= i < j < 4 ==>
      p.locks[i].id != p.locks[j].id && (p.locks[i].position, p.locks[i].face) != (p.locks[j].position, p.locks[j].face)
    ensures forall i :: 0 <= i < 4 ==>
      && p.locks[i].funder != p.locks[i].recipient && 1 <= p.locks[i].minimum <= p.locks[i].principal - p.locks[i].maximumFee
      && 0 <= p.locks[i].maximumFee && p.locks[i].principal < MAX_UNITS
  {
    assert forall i :: 0 <= i < 4 ==> LockValid(p, p.locks[i]);
  }
}
