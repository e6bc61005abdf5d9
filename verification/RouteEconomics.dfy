/**
 The accounting checker of scripts/route_economics_oracle.py: pinned route
 terms, a list of observations folded into lock states and per-asset ledgers,
 an outcome rule and a final ledger check.
 */
module RouteEconomics {
  import opened Wire

  const MAX_UNITS: nat := 0x1_0000_0000_0000_0000_0000_0000_0000_0000
  const MAX_OBSERVATIONS := 128

  datatype Refusal =
    | InvalidVersion | InvalidIdentity | TwoLegsExpected | WrongLegOrder | InvalidFamily | DomNotDistinct
    | SettlementAlias | ChainFamilyContradiction | FourLocksExpected | DuplicateLock | WrongLockPosition
    | WrongLockFace | DuplicateLockFace | FunderIsRecipient | InvalidAmount | InvalidPayoutBounds
    | RouteTransplant | NonterminalRoute | UnboundedObservations | ReplayedEvent | UnknownLock
    | WrongRouteOrSettlement | WrongChainOrAsset | Unfinalized | InvalidEventIndex | EventUsedTwice
    | EffectExecutedTwice | UnknownAction | InvalidDeposit | FundingMismatch | TerminalWithoutFunding
    | PrincipalNotConserved | WrongRecipient | PayoutBelowMinimum | IncompleteLocks | EmptyCompensation
    | PrincipalNotRefunded | CommittedPrincipal | LedgerNotConserved

  datatype Face = DOM | BTC | EVM | SOL | XMR
  datatype Leg = Leg(position: int, settlement: string, face: Face, chain: string)
  datatype Lock = Lock(id: string, position: int, face: Face, asset: string, principal: int, funder: string,
    recipient: string, maximumFee: int, minimum: int)
  datatype Pins = Pins(version: int, route: string, domChain: string, legs: seq<Leg>, locks: seq<Lock>)
  datatype Observation = Observation(event: string, route: string, settlement: string, lock: string, effect: string,
    chain: string, asset: string, txid: string, index: int, action: string, amount: int, recipient: string,
    fee: int, finalized: bool)
  datatype Witness = Witness(version: int, route: string, outcome: string, observations: seq<Observation>)

  predicate IsHex(c: char) {
    '0' <= c <= '9' || 'a' <= c <= 'f'
  }

  predicate Identity(s: string) {
    |s| == 64 && (forall i :: 0 <= i < |s| ==> IsHex(s[i])) && exists i :: 0 <= i < |s| && s[i] != '0'
  }

  predicate Units(v: int) {
    1 <= v < MAX_UNITS
  }

  predicate UnitsOrZero(v: int) {
    0 <= v < MAX_UNITS
  }

  // ===== Pins

  predicate LegsValid(p: Pins) {
    && |p.legs| == 2
    && (forall i :: 0 <= i < 2 ==>
         && p.legs[i].position == i && p.legs[i].face != DOM && Identity(p.legs[i].chain)
         && p.legs[i].chain != p.domChain && Identity(p.legs[i].settlement))
    && p.legs[0].settlement != p.legs[1].settlement
    && (p.legs[0].chain == p.legs[1].chain ==> p.legs[0].face == p.legs[1].face)
  }

  predicate LockValid(p: Pins, l: Lock)
    requires |p.legs| == 2
  {
    && Identity(l.id) && (l.position == 0 || l.position == 1)
    && (l.face == DOM || l.face == p.legs[l.position].face)
    && Identity(l.asset) && Identity(l.funder) && Identity(l.recipient) && l.funder != l.recipient
    && Units(l.principal) && UnitsOrZero(l.maximumFee) && Units(l.minimum)
    && l.maximumFee < l.principal && l.minimum <= l.principal && l.principal - l.maximumFee >= l.minimum
  }

  predicate LocksDistinct(locks: seq<Lock>) {
    forall i, j :: 0 <= i < j < |locks| ==>
      locks[i].id != locks[j].id && (locks[i].position != locks[j].position || locks[i].face != locks[j].face)
  }

  predicate PinsValid(p: Pins) {
    && p.version == 6 && Identity(p.route) && Identity(p.domChain) && LegsValid(p)
    && |p.locks| == 4 && LocksDistinct(p.locks) && forall i :: 0 <= i < 4 ==> LockValid(p, p.locks[i])
  }

  method CheckLock(p: Pins, l: Lock, ids: set<string>, places: set<(int, Face)>) returns (r: Result<(), Refusal>)
    requires |p.legs| == 2
    ensures r.Ok? <==> LockValid(p, l) && l.id !in ids && (l.position, l.face) !in places
    ensures r.Err? ==> r.error != LedgerNotConserved && r.error != PayoutBelowMinimum
  {
    if !Identity(l.id) { return Err(InvalidIdentity); }
    if l.id in ids { return Err(DuplicateLock); }
    if l.position != 0 && l.position != 1 { return Err(WrongLockPosition); }
    if l.face != DOM && l.face != p.legs[l.position].face { return Err(WrongLockFace); }
    if (l.position, l.face) in places { return Err(DuplicateLockFace); }
    if !Identity(l.asset) || !Identity(l.funder) || !Identity(l.recipient) { return Err(InvalidIdentity); }
    if l.funder == l.recipient { return Err(FunderIsRecipient); }
    if !Units(l.principal) || !UnitsOrZero(l.maximumFee) || !Units(l.minimum) { return Err(InvalidAmount); }
    if !(l.maximumFee < l.principal && l.minimum <= l.principal && l.principal - l.maximumFee >= l.minimum) {
      return Err(InvalidPayoutBounds);
    }
    r := Ok(());
  }

  method CheckPins(p: Pins) returns (r: Result<(), Refusal>)
    ensures r.Ok? <==> PinsValid(p)
    ensures r.Err? ==> r.error != LedgerNotConserved && r.error != PayoutBelowMinimum
  {
    hide Identity, LockValid, LocksDistinct;
    if p.version != 6 { return Err(InvalidVersion); }
    if !Identity(p.route) || !Identity(p.domChain) { return Err(InvalidIdentity); }
    if |p.legs| != 2 { return Err(TwoLegsExpected); }
    for i := 0 to 2
      invariant forall k :: 0 <= k < i ==>
        && p.legs[k].position == k && p.legs[k].face != DOM && Identity(p.legs[k].chain)
        && p.legs[k].chain != p.domChain && Identity(p.legs[k].settlement)
    {
      var leg := p.legs[i];
      if leg.position != i { return Err(WrongLegOrder); }
      if leg.face == DOM { return Err(InvalidFamily); }
      if !Identity(leg.chain) { return Err(InvalidIdentity); }
      if leg.chain == p.domChain { return Err(DomNotDistinct); }
      if !Identity(leg.settlement) { return Err(InvalidIdentity); }
    }
    if p.legs[0].settlement == p.legs[1].settlement { return Err(SettlementAlias); }
    if p.legs[0].chain == p.legs[1].chain && p.legs[0].face != p.legs[1].face { return Err(ChainFamilyContradiction); }
    if |p.locks| != 4 { return Err(FourLocksExpected); }
    var _ :- CheckLocks(p);
    r := Ok(());
  }

  method CheckLocks(p: Pins) returns (r: Result<(), Refusal>)
    requires |p.legs| == 2
    ensures r.Ok? <==> LocksDistinct(p.locks) && forall i :: 0 <= i < |p.locks| ==> LockValid(p, p.locks[i])
    ensures r.Err? ==> r.error != LedgerNotConserved && r.error != PayoutBelowMinimum
  {
    hide LockValid;
    var ids: set<string>, places: set<(int, Face)> := {}, {};
    for i := 0 to |p.locks|
      invariant LocksDistinct(p.locks[..i]) && forall k :: 0 <= k < i ==> LockValid(p, p.locks[k])
      invariant ids == set k | 0 <= k < i :: p.locks[k].id
      invariant places == set k | 0 <= k < i :: (p.locks[k].position, p.locks[k].face)
    {
      var l := p.locks[i];
      var _ :- CheckLock(p, l, ids, places);
      ids, places := ids + {l.id}, places + {(l.position, l.face)};
    }
    assert p.locks[..|p.locks|] == p.locks;
    r := Ok(());
  }

  /** Accepted pins hold exactly one DOM and one counterparty lock for each leg. */
  lemma PinsCover(p: Pins, position: int, dom: bool) returns (i: nat)
    requires PinsValid(p) && (position == 0 || position == 1)
    ensures i < 4 && p.locks[i].position == position && (p.locks[i].face == DOM <==> dom)
    ensures forall j :: 0 <= j < 4 && p.locks[j].position == position && (p.locks[j].face == DOM <==> dom) ==> j == i
  {
    assert LockValid(p, p.locks[0]) && LockValid(p, p.locks[1]) && LockValid(p, p.locks[2]) && LockValid(p, p.locks[3]);
    i := if p.locks[0].position == position && (p.locks[0].face == DOM <==> dom) then 0
         else if p.locks[1].position == position && (p.locks[1].face == DOM <==> dom) then 1
         else if p.locks[2].position == position && (p.locks[2].face == DOM <==> dom) then 2 else 3;
  }

  // ===== Observations

  datatype LockState = LockState(funded: bool, terminal: Option<string>, principal: int, surplus: int)
  datatype Ledger = Ledger(inn: int, out: int, fees: int, residual: int)
  type Key = (string, string)

  datatype Books = Books(locks: map<string, LockState>, events: set<string>, effects: set<(string, string)>,
    consumed: set<(string, string, int)>, totals: map<Key, Ledger>)

  function ChainOf(p: Pins, l: Lock): string
    requires PinsValid(p) && l in p.locks
  {
    if l.face == DOM then p.domChain else LegOf(p, l).chain
  }

  function LegOf(p: Pins, l: Lock): Leg
    requires PinsValid(p) && l in p.locks
  {
    p.legs[l.position]
  }

  function KeyOf(p: Pins, l: Lock): Key
    requires PinsValid(p) && l in p.locks
  {
    (ChainOf(p, l), l.asset)
  }

  function FindLock(locks: seq<Lock>, id: string): Option<Lock> {
    if locks == [] then None else if locks[|locks| - 1].id == id then Some(locks[|locks| - 1])
    else FindLock(locks[..|locks| - 1], id)
  }

  lemma {:induction false} FindLockExact(locks: seq<Lock>, id: string)
    ensures FindLock(locks, id).Some? ==> FindLock(locks, id).value in locks && FindLock(locks, id).value.id == id
    ensures FindLock(locks, id).None? ==> forall i :: 0 <= i < |locks| ==> locks[i].id != id
  {
    if locks != [] {
      FindLockExact(locks[..|locks| - 1], id);
    }
  }

  function Opening(locks: seq<Lock>): Books {
    Books(map l | l in locks :: l.id := LockState(false, None, 0, 0), {}, {}, {}, map[])
  }

  predicate Addressed(p: Pins, l: Lock, o: Observation)
    requires PinsValid(p) && l in p.locks
  {
    o.route == p.route && o.settlement == LegOf(p, l).settlement
  }

  function LedgerAt(totals: map<Key, Ledger>, key: Key): Ledger {
    if key in totals then totals[key] else Ledger(0, 0, 0, 0)
  }

  /** What one observation does to its lock and its ledger. */
  function Book(l: Lock, s: LockState, t: Ledger, o: Observation): Result<(LockState, Ledger), Refusal> {
    if o.action == "fund" || o.action == "surplus" then
      if s.terminal.Some? || o.recipient != l.id || o.fee != 0 then Err(InvalidDeposit)
      else if o.action == "fund" then
        if s.funded || o.amount != l.principal then Err(FundingMismatch)
        else Ok((s.(funded := true, principal := o.amount), t.(inn := t.inn + o.amount)))
      else Ok((s.(surplus := s.surplus + o.amount), t.(inn := t.inn + o.amount)))
    else
      if !s.funded || s.terminal.Some? then Err(TerminalWithoutFunding)
      else if o.fee > l.maximumFee || o.amount + o.fee != s.principal then Err(PrincipalNotConserved)
      else if o.recipient != (if o.action == "claim" then l.recipient else l.funder) then Err(WrongRecipient)
      else if o.action == "claim" && o.amount < l.minimum then Err(PayoutBelowMinimum)
      else Ok((s.(terminal := Some(o.action)), t.(out := t.out + o.amount, fees := t.fees + o.fee)))
  }

  predicate KnownAction(a: string) {
    a == "fund" || a == "surplus" || a == "claim" || a == "refund"
  }

  /** Every check made on one observation before its amounts are booked. */
  function Admit(p: Pins, b: Books, o: Observation): Result<Lock, Refusal>
    requires PinsValid(p)
  {
    if !Identity(o.event) then Err(InvalidIdentity)
    else if o.event in b.events then Err(ReplayedEvent)
    else
      var found := FindLock(p.locks, o.lock);
      if found.None? then Err(UnknownLock)
      else
        FindLockExact(p.locks, o.lock);
        var l := found.value;
        if !Addressed(p, l, o) then Err(WrongRouteOrSettlement)
        else if o.chain != ChainOf(p, l) || o.asset != l.asset then Err(WrongChainOrAsset)
        else if !o.finalized then Err(Unfinalized)
        else if !Identity(o.txid) then Err(InvalidIdentity)
        else if !(0 <= o.index < 0x1_0000_0000) then Err(InvalidEventIndex)
        else if (o.chain, o.txid, o.index) in b.consumed then Err(EventUsedTwice)
        else if !Identity(o.effect) then Err(InvalidIdentity)
        else if (o.lock, o.effect) in b.effects then Err(EffectExecutedTwice)
        else if !Units(o.amount) || !UnitsOrZero(o.fee) then Err(InvalidAmount)
        else if !KnownAction(o.action) then Err(UnknownAction)
        else Ok(l)
  }

  lemma AdmitsKnownLock(p: Pins, b: Books, o: Observation)
    requires PinsValid(p) && Admit(p, b, o).Ok?
    ensures var l := Admit(p, b, o).value;
      l in p.locks && l.id == o.lock && Units(o.amount) && UnitsOrZero(o.fee) && KnownAction(o.action)
  {
    hide PinsValid, Identity;
    FindLockExact(p.locks, o.lock);
  }

  predicate Tracks(p: Pins, b: Books) {
    forall l :: l in p.locks ==> l.id in b.locks
  }

  function Observe(p: Pins, b: Books, o: Observation): Result<Books, Refusal>
    requires PinsValid(p) && Tracks(p, b)
  {
    match Admit(p, b, o)
    case Err(e) => Err(e)
    case Ok(l) =>
      AdmitsKnownLock(p, b, o);
      var key := KeyOf(p, l);
      match Book(l, b.locks[l.id], LedgerAt(b.totals, key), o)
      case Err(e) => Err(e)
      case Ok((s, t)) =>
        Ok(Books(b.locks[l.id := s], b.events + {o.event}, b.effects + {(o.lock, o.effect)},
          b.consumed + {(o.chain, o.txid, o.index)}, b.totals[key := t]))
  }

  /** All observations so far, in order. */
  function ObserveAll(p: Pins, os: seq<Observation>): (r: Result<Books, Refusal>)
    requires PinsValid(p)
    ensures r.Ok? ==> Tracks(p, r.value)
  {
    if os == [] then Ok(Opening(p.locks))
    else
      match ObserveAll(p, os[..|os| - 1])
      case Err(e) => Err(e)
      case Ok(b) => Observe(p, b, os[|os| - 1])
  }

  // ===== What every accepted prefix keeps

  /** The lock states are reachable by one funding of exactly the principal and at most one terminal. */
  predicate StateSound(l: Lock, s: LockState) {
    && s.surplus >= 0 && s.principal == (if s.funded then l.principal else 0)
    && (s.terminal.Some? ==> s.funded && (s.terminal.value == "claim" || s.terminal.value == "refund"))
  }

  predicate StatesSound(p: Pins, ls: map<string, LockState>) {
    forall i :: 0 <= i < |p.locks| ==> p.locks[i].id in ls && StateSound(p.locks[i], ls[p.locks[i].id])
  }

  /** What entered, left and stayed under one chain and asset, summed over the first `n` locks. */
  function Inflow(p: Pins, ls: map<string, LockState>, key: Key, n: nat): int
    requires PinsValid(p) && StatesSound(p, ls) && n <= |p.locks|
  {
    if n == 0 then 0
    else var l := p.locks[n - 1];
      Inflow(p, ls, key, n - 1) + (if KeyOf(p, l) == key then ls[l.id].principal + ls[l.id].surplus else 0)
  }

  function Outflow(p: Pins, ls: map<string, LockState>, key: Key, n: nat): int
    requires PinsValid(p) && StatesSound(p, ls) && n <= |p.locks|
  {
    if n == 0 then 0
    else var l := p.locks[n - 1];
      Outflow(p, ls, key, n - 1) + (if KeyOf(p, l) == key && ls[l.id].terminal.Some? then ls[l.id].principal else 0)
  }

  function Residual(p: Pins, ls: map<string, LockState>, key: Key, n: nat): int
    requires PinsValid(p) && StatesSound(p, ls) && n <= |p.locks|
  {
    if n == 0 then 0
    else var l := p.locks[n - 1];
      Residual(p, ls, key, n - 1) + (if KeyOf(p, l) == key then ls[l.id].surplus else 0)
  }

  /** The ledger of a key is the sum over the locks that share it. */
  predicate LedgerSound(p: Pins, ls: map<string, LockState>, key: Key, t: Ledger)
    requires PinsValid(p) && StatesSound(p, ls)
  {
    t.inn == Inflow(p, ls, key, 4) && t.out + t.fees == Outflow(p, ls, key, 4) && t.residual == 0
  }

  predicate BooksSound(p: Pins, b: Books)
    requires PinsValid(p)
  {
    && StatesSound(p, b.locks)
    && (forall key :: key in b.totals ==> LedgerSound(p, b.locks, key, b.totals[key]))
    && (forall i :: 0 <= i < |p.locks| && KeyOf(p, p.locks[i]) !in b.totals ==>
         b.locks[p.locks[i].id] == LockState(false, None, 0, 0))
  }

  /** Changing one lock's state changes the sums of its own key by the difference and no other. */
  lemma {:induction false} FlowsMove(p: Pins, ls: map<string, LockState>, j: nat, s: LockState, key: Key, n: nat)
    requires PinsValid(p) && StatesSound(p, ls) && j < |p.locks| && StateSound(p.locks[j], s) && n <= |p.locks|
    ensures var l := p.locks[j]; var ls' := ls[l.id := s]; var was := ls[l.id];
      && StatesSound(p, ls')
      && (j < n && KeyOf(p, l) == key ==>
           && Inflow(p, ls', key, n) == Inflow(p, ls, key, n) + s.principal + s.surplus - was.principal - was.surplus
           && Outflow(p, ls', key, n) == Outflow(p, ls, key, n)
                + (if s.terminal.Some? then s.principal else 0) - (if was.terminal.Some? then was.principal else 0))
      && (j >= n || KeyOf(p, l) != key ==>
           Inflow(p, ls', key, n) == Inflow(p, ls, key, n) && Outflow(p, ls', key, n) == Outflow(p, ls, key, n))
  {
    hide PinsValid, StateSound, KeyOf;
    StatesMove(p, ls, j, s);
    if n > 0 {
      FlowsMove(p, ls, j, s, key, n - 1);
      OtherIds(p, j, n - 1);
    }
  }

  lemma OtherIds(p: Pins, j: nat, k: nat)
    requires PinsValid(p) && j < |p.locks| && k < |p.locks|
    ensures p.locks[j].id == p.locks[k].id ==> j == k
  {
  }

  lemma StatesMove(p: Pins, ls: map<string, LockState>, j: nat, s: LockState)
    requires PinsValid(p) && StatesSound(p, ls) && j < |p.locks| && StateSound(p.locks[j], s)
    ensures StatesSound(p, ls[p.locks[j].id := s])
  {
    hide StateSound, Identity;
    forall i | 0 <= i < |p.locks|
      ensures var ls' := ls[p.locks[j].id := s]; p.locks[i].id in ls' && StateSound(p.locks[i], ls'[p.locks[i].id])
    {
      OtherIds(p, j, i);
    }
  }

  /** Booking keeps a lock's state sound and moves its ledger with it. */
  lemma BookSound(l: Lock, s: LockState, t: Ledger, o: Observation)
    requires StateSound(l, s) && Units(o.amount) && UnitsOrZero(o.fee) && KnownAction(o.action) && l.principal > 0
    requires Book(l, s, t, o).Ok?
    ensures var (s', t') := Book(l, s, t, o).value;
      && StateSound(l, s') && t'.residual == t.residual
      && t'.inn - t.inn == s'.principal + s'.surplus - s.principal - s.surplus
      && (t'.out + t'.fees) - (t.out + t.fees)
           == (if s'.terminal.Some? then s'.principal else 0) - (if s.terminal.Some? then s.principal else 0)
  {
  }

  lemma {:induction false} NoFlow(p: Pins, ls: map<string, LockState>, key: Key, n: nat)
    requires PinsValid(p) && StatesSound(p, ls) && n <= |p.locks|
    requires forall i :: 0 <= i < n && KeyOf(p, p.locks[i]) == key ==> ls[p.locks[i].id] == LockState(false, None, 0, 0)
    ensures Inflow(p, ls, key, n) == 0 && Outflow(p, ls, key, n) == 0
  {
    hide PinsValid, StateSound, KeyOf;
    if n > 0 {
      NoFlow(p, ls, key, n - 1);
    }
  }

  lemma ObserveSound(p: Pins, b: Books, o: Observation)
    requires PinsValid(p) && BooksSound(p, b) && Observe(p, b, o).Ok?
    ensures BooksSound(p, Observe(p, b, o).value)
  {
    hide PinsValid, StateSound, Admit, Book, KeyOf, Inflow, Outflow, Units, UnitsOrZero, KnownAction;
    var l := Admit(p, b, o).value;
    AdmitsKnownLock(p, b, o);
    var j :| 0 <= j < |p.locks| && p.locks[j] == l;
    var key := KeyOf(p, l);
    var t := LedgerAt(b.totals, key);
    var (s', t') := Book(l, b.locks[l.id], t, o).value;
    PrincipalPositive(p, j);
    BookSound(l, b.locks[l.id], t, o);
    StatesMove(p, b.locks, j, s');
    FourLocks(p);
    if key !in b.totals {
      NoFlow(p, b.locks, key, 4);
    }
    var b' := Observe(p, b, o).value;
    forall k | k in b'.totals
      ensures LedgerSound(p, b'.locks, k, b'.totals[k])
    {
      FlowsMove(p, b.locks, j, s', k, 4);
    }
    forall i | 0 <= i < |p.locks| && KeyOf(p, p.locks[i]) !in b'.totals
      ensures b'.locks[p.locks[i].id] == LockState(false, None, 0, 0)
    {
      OtherIds(p, j, i);
    }
  }

  lemma PrincipalPositive(p: Pins, j: nat)
    requires PinsValid(p) && j < |p.locks|
    ensures p.locks[j].principal > 0
  {
    assert LockValid(p, p.locks[j]);
  }

  lemma FourLocks(p: Pins)
    requires PinsValid(p)
    ensures |p.locks| == 4
  {
  }

  lemma {:induction false} ObserveAllSound(p: Pins, os: seq<Observation>)
    requires PinsValid(p) && ObserveAll(p, os).Ok?
    ensures BooksSound(p, ObserveAll(p, os).value)
  {
    hide PinsValid, Observe;
    if os != [] {
      ObserveAllSound(p, os[..|os| - 1]);
      ObserveSound(p, ObserveAll(p, os[..|os| - 1]).value, os[|os| - 1]);
    }
  }

  // ===== Histories

  /** How many observations of a lock carry one of two actions. */
  function Count(os: seq<Observation>, id: string, a: string, a': string): nat {
    if os == [] then 0
    else
      var o := os[|os| - 1];
      Count(os[..|os| - 1], id, a, a') + (if o.lock == id && (o.action == a || o.action == a') then 1 else 0)
  }

  /** Funding needs a lock not yet funded and its exact principal; a terminal needs one not yet closed. */
  lemma BookCounts(l: Lock, s: LockState, t: Ledger, o: Observation)
    requires KnownAction(o.action) && Book(l, s, t, o).Ok?
    ensures var s' := Book(l, s, t, o).value.0;
      && (o.action == "fund" ==> !s.funded && s'.funded && o.amount == l.principal)
      && (o.action != "fund" ==> s'.funded == s.funded)
      && (o.action == "claim" || o.action == "refund" ==> s.terminal.None? && s'.terminal.Some?)
      && (o.action != "claim" && o.action != "refund" ==> s'.terminal == s.terminal)
  {
  }

  /** A lock is funded at most once, with its exact principal, and has at most one claim or refund. */
  lemma {:induction false} FundedOnceClosedOnce(p: Pins, os: seq<Observation>, j: nat)
    requires PinsValid(p) && ObserveAll(p, os).Ok? && j < |p.locks|
    ensures var s := ObserveAll(p, os).value.locks[p.locks[j].id];
      && Count(os, p.locks[j].id, "fund", "fund") == (if s.funded then 1 else 0)
      && Count(os, p.locks[j].id, "claim", "refund") == (if s.terminal.Some? then 1 else 0)
    ensures forall i :: 0 <= i < |os| && os[i].lock == p.locks[j].id && os[i].action == "fund" ==>
      os[i].amount == p.locks[j].principal
  {
    hide PinsValid, Admit, KeyOf, Units, UnitsOrZero, Book, KnownAction;
    if os != [] {
      var rest, o := os[..|os| - 1], os[|os| - 1];
      FundedOnceClosedOnce(p, rest, j);
      var b := ObserveAll(p, rest).value;
      AdmitsKnownLock(p, b, o);
      var l := Admit(p, b, o).value;
      var k :| 0 <= k < |p.locks| && p.locks[k] == l;
      OtherIds(p, j, k);
      BookCounts(l, b.locks[l.id], LedgerAt(b.totals, KeyOf(p, l)), o);
      assert forall i :: 0 <= i < |rest| ==> os[i] == rest[i];
    }
  }

  /** No event identity, chain event or effect of a lock is ever accepted twice. */
  predicate AllDistinct(os: seq<Observation>) {
    forall i, j :: 0 <= i < j < |os| ==>
      && os[i].event != os[j].event
      && (os[i].chain, os[i].txid, os[i].index) != (os[j].chain, os[j].txid, os[j].index)
      && (os[i].lock, os[i].effect) != (os[j].lock, os[j].effect)
  }

  predicate Remembers(b: Books, os: seq<Observation>) {
    forall i :: 0 <= i < |os| ==>
      && os[i].event in b.events && (os[i].chain, os[i].txid, os[i].index) in b.consumed
      && (os[i].lock, os[i].effect) in b.effects
  }

  lemma AdmitsOnlyNew(p: Pins, b: Books, o: Observation)
    requires PinsValid(p) && Admit(p, b, o).Ok?
    ensures o.event !in b.events && (o.chain, o.txid, o.index) !in b.consumed && (o.lock, o.effect) !in b.effects
  {
    hide PinsValid, Identity, Units, UnitsOrZero, ChainOf, Addressed, KnownAction;
  }

  lemma {:induction false} NothingTwice(p: Pins, os: seq<Observation>)
    requires PinsValid(p) && ObserveAll(p, os).Ok?
    ensures AllDistinct(os) && Remembers(ObserveAll(p, os).value, os)
  {
    hide PinsValid, Book, KeyOf, Admit;
    if os != [] {
      var rest := os[..|os| - 1];
      NothingTwice(p, rest);
      AdmitsOnlyNew(p, ObserveAll(p, rest).value, os[|os| - 1]);
      forall i | 0 <= i < |rest|
        ensures os[i] == rest[i]
      {
      }
    }
  }

  // ===== The closing rules

  predicate OutcomeHolds(p: Pins, ls: map<string, LockState>, outcome: string)
    requires PinsValid(p) && StatesSound(p, ls)
  {
    if outcome == "settled" then
      forall i :: 0 <= i < |p.locks| ==> ls[p.locks[i].id].funded && ls[p.locks[i].id].terminal == Some("claim")
    else if outcome == "compensated" then
      && (exists i :: 0 <= i < |p.locks| && ls[p.locks[i].id].funded)
      && (forall i :: 0 <= i < |p.locks| ==>
           ls[p.locks[i].id].terminal == if ls[p.locks[i].id].funded then Some("refund") else None)
    else
      forall i :: 0 <= i < |p.locks| ==> !ls[p.locks[i].id].funded && ls[p.locks[i].id].terminal.None?
  }

  /** The ledgers once the surplus of the first `n` locks has been moved to the residual column. */
  function WithResiduals(p: Pins, ls: map<string, LockState>, totals: map<Key, Ledger>, n: nat): map<Key, Ledger>
    requires PinsValid(p) && StatesSound(p, ls) && n <= |p.locks|
  {
    if n == 0 then totals
    else
      var before := WithResiduals(p, ls, totals, n - 1);
      var l := p.locks[n - 1];
      var t := LedgerAt(before, KeyOf(p, l));
      if ls[l.id].surplus != 0 then before[KeyOf(p, l) := t.(residual := t.residual + ls[l.id].surplus)] else before
  }

  predicate Balanced(t: Ledger) {
    t.inn == t.out + t.fees + t.residual
  }

  lemma {:induction false} ResidualsMoved(p: Pins, b: Books, key: Key, n: nat)
    requires PinsValid(p) && BooksSound(p, b) && n <= |p.locks|
    ensures key in WithResiduals(p, b.locks, b.totals, n) <==> key in b.totals
    ensures key in b.totals ==>
      WithResiduals(p, b.locks, b.totals, n)[key]
        == b.totals[key].(residual := b.totals[key].residual + Residual(p, b.locks, key, n))
    decreases n
  {
    hide PinsValid, StateSound, KeyOf, Inflow, Outflow;
    if n > 0 {
      ResidualsMoved(p, b, key, n - 1);
      ResidualsMoved(p, b, KeyOf(p, p.locks[n - 1]), n - 1);
    }
  }

  /** When every funded lock is closed, what came in is what went out plus what stayed. */
  lemma {:induction false} ClosedBalances(p: Pins, ls: map<string, LockState>, key: Key, n: nat)
    requires PinsValid(p) && StatesSound(p, ls) && n <= |p.locks|
    requires forall i :: 0 <= i < |p.locks| ==> (ls[p.locks[i].id].funded <==> ls[p.locks[i].id].terminal.Some?)
    ensures Inflow(p, ls, key, n) == Outflow(p, ls, key, n) + Residual(p, ls, key, n)
  {
    hide PinsValid, KeyOf;
    if n > 0 {
      ClosedBalances(p, ls, key, n - 1);
      assert StateSound(p.locks[n - 1], ls[p.locks[n - 1].id]);
    }
  }

  /** Conservation: after any outcome the rules accept, every ledger balances, even when locks share an asset. */
  lemma LedgersBalance(p: Pins, b: Books, outcome: string, key: Key)
    requires PinsValid(p) && BooksSound(p, b) && OutcomeHolds(p, b.locks, outcome)
    ensures key in WithResiduals(p, b.locks, b.totals, |p.locks|) ==>
      Balanced(WithResiduals(p, b.locks, b.totals, |p.locks|)[key])
  {
    hide PinsValid, StateSound, KeyOf, Inflow, Outflow, Residual;
    FourLocks(p);
    ResidualsMoved(p, b, key, 4);
    ClosedBalances(p, b.locks, key, 4);
  }

  /** The payout bounds of the pins leave nothing for the minimum-payout check to refuse. */
  lemma MinimumImplied(l: Lock, s: LockState, t: Ledger, o: Observation)
    requires StateSound(l, s) && l.principal - l.maximumFee >= l.minimum
    ensures Book(l, s, t, o) != Err(PayoutBelowMinimum) && Book(l, s, t, o) != Err(LedgerNotConserved)
  {
  }

  lemma {:induction false} ObservationsNeverBelowMinimum(p: Pins, os: seq<Observation>)
    requires PinsValid(p)
    ensures ObserveAll(p, os) != Err(PayoutBelowMinimum) && ObserveAll(p, os) != Err(LedgerNotConserved)
  {
    hide StateSound, PinsValid, Admit, Book, KeyOf, LedgerSound, Units, UnitsOrZero, KnownAction;
    if os != [] {
      var rest, o := os[..|os| - 1], os[|os| - 1];
      ObservationsNeverBelowMinimum(p, rest);
      if ObserveAll(p, rest).Ok? {
        var b := ObserveAll(p, rest).value;
        AdmitErrors(p, b, o);
        if Admit(p, b, o).Ok? {
          AdmitsKnownLock(p, b, o);
          ObserveAllSound(p, rest);
          var j :| 0 <= j < |p.locks| && p.locks[j] == Admit(p, b, o).value;
          PayoutBounds(p, j);
          MinimumImplied(p.locks[j], b.locks[o.lock], LedgerAt(b.totals, KeyOf(p, p.locks[j])), o);
        }
      }
    }
  }

  lemma AdmitErrors(p: Pins, b: Books, o: Observation)
    requires PinsValid(p)
    ensures Admit(p, b, o) != Err(PayoutBelowMinimum) && Admit(p, b, o) != Err(LedgerNotConserved)
  {
    hide PinsValid, Identity, Units, UnitsOrZero, ChainOf, Addressed, KnownAction;
  }

  lemma PayoutBounds(p: Pins, j: nat)
    requires PinsValid(p) && j < |p.locks|
    ensures p.locks[j].principal - p.locks[j].maximumFee >= p.locks[j].minimum
  {
    assert LockValid(p, p.locks[j]);
  }
}
