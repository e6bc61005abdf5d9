/**
 Terminal transactions and their fee replacements: the checks of
 crates/btc-actuator/src/model.rs and the attempt table of its store.
 */
module Replacement {
  import opened Wire
  import Registry = RegistryCodec
  import opened ActuationScope
  import opened BitcoinTransaction
  import opened TransactionSize

  datatype ActuatorError =
    | TransactionMismatch | InvalidTransaction | InvalidScope | UnsafeReplacement
    | EffectNotFound | IdempotencyConflict | InvalidState

  /** A parsed transaction with its identity and the commitment to its exact bytes. */
  datatype Exact = Exact(tx: Tx, txid: Bytes, intent: Bytes)

  // ===== Generation zero

  /** The input's previous output, read off its 36 bytes. */
  predicate Spends(x: TxIn, o: Outpoint) {
    |x.outpoint| == 36 && x.outpoint[..32] == o.txid && FromLE(x.outpoint[32..]) == o.vout
  }

  /** The transaction identity, then the output index, least significant byte first. */
  lemma SpendsExact(x: TxIn, o: Outpoint)
    requires |o.txid| == 32 && o.vout < Pow256(4)
    ensures Spends(x, o) <==> x.outpoint == o.txid + ToLE(o.vout, 4)
  {
    hide ToLE, FromLE, Pow256;
    ToLERoundTrip(o.vout, 4);
    if Spends(x, o) {
      FromLERoundTrip(x.outpoint[32..]);
      assert x.outpoint == x.outpoint[..32] + x.outpoint[32..];
    } else if x.outpoint == o.txid + ToLE(o.vout, 4) {
      Peel(x.outpoint, 0, o.txid, ToLE(o.vout, 4));
    }
  }

  predicate TerminalAllowed(s: Scope, x: Exact) {
    && IsTerminal(s.action) && s.expectedTxid == x.txid && s.intent == x.intent
    && |x.tx.inputs| == 1 && s.outpoint.Some?
    && Spends(x.tx.inputs[0], s.outpoint.value)
    && TotalAmount(x.tx.outputs) <= MAX_U64
    && TotalAmount(x.tx.outputs) + s.policy.initialFee == s.amount
    && !(s.action == Claim && s.policy.changeVout.Some?)
  }

  lemma {:induction false} TotalGrows(outs: seq<TxOut>, i: nat)
    requires i <= |outs|
    ensures TotalAmount(outs[..i]) <= TotalAmount(outs)
    decreases |outs| - i
  {
    if i < |outs| {
      assert outs[..i + 1][..i] == outs[..i];
      TotalGrows(outs, i + 1);
    } else {
      assert outs[..i] == outs;
    }
  }

  method ValidateTerminal(s: Scope, x: Exact) returns (r: Result<(), ActuatorError>)
    ensures r.Ok? <==> TerminalAllowed(s, x)
    ensures r.Ok? && |s.outpoint.value.txid| == 32 && s.outpoint.value.vout < Pow256(4) ==>
      |x.tx.inputs| == 1 && x.tx.inputs[0].outpoint == s.outpoint.value.txid + ToLE(s.outpoint.value.vout, 4)
  {
    if !IsTerminal(s.action) || s.expectedTxid != x.txid || s.intent != x.intent || |x.tx.inputs| != 1 {
      return Err(TransactionMismatch);
    }
    if s.outpoint.None? {
      return Err(ActuatorError.InvalidScope);
    }
    if !Spends(x.tx.inputs[0], s.outpoint.value) {
      return Err(TransactionMismatch);
    }
    ghost var typed := |s.outpoint.value.txid| == 32 && s.outpoint.value.vout < Pow256(4);
    if typed {
      SpendsExact(x.tx.inputs[0], s.outpoint.value);
    }
    var sum := 0;
    for i := 0 to |x.tx.outputs|
      invariant sum == TotalAmount(x.tx.outputs[..i]) <= MAX_U64
    {
      assert x.tx.outputs[..i + 1][..i] == x.tx.outputs[..i];
      sum := sum + x.tx.outputs[i].amount;
      if sum > MAX_U64 {
        TotalGrows(x.tx.outputs, i + 1);
        return Err(InvalidTransaction);
      }
    }
    assert x.tx.outputs[..|x.tx.outputs|] == x.tx.outputs;
    if sum > s.amount || s.amount - sum != s.policy.initialFee {
      return Err(TransactionMismatch);
    }
    if s.action == Claim && s.policy.changeVout.Some? {
      return Err(ActuatorError.InvalidScope);
    }
    r := Ok(());
  }

  /** Such a transaction is accepted: one input that spends the contract output, and the initial fee left over. */
  lemma TerminalAccepted(s: Scope, x: Exact, o: Outpoint)
    requires IsTerminal(s.action) && s.outpoint == Some(o) && |o.txid| == 32 && o.vout < Pow256(4) && s.amount <= MAX_U64
    requires s.expectedTxid == x.txid && s.intent == x.intent && (s.action == Claim ==> s.policy.changeVout.None?)
    requires |x.tx.inputs| == 1 && x.tx.inputs[0].outpoint == o.txid + ToLE(o.vout, 4)
    requires TotalAmount(x.tx.outputs) + s.policy.initialFee == s.amount
    ensures TerminalAllowed(s, x)
  {
    hide ToLE, FromLE, Pow256, TotalAmount;
    SpendsExact(x.tx.inputs[0], o);
  }

  // ===== One replacement

  /** The parts of an input a replacement may not touch: all but its witness. */
  predicate SameInput(a: TxIn, b: TxIn) {
    a.outpoint == b.outpoint && a.sequence == b.sequence && a.script == b.script
  }

  predicate SameInputs(a: seq<TxIn>, b: seq<TxIn>) {
    |a| == |b| && forall i :: 0 <= i < |a| ==> SameInput(a[i], b[i])
  }

  /** Equal scripts everywhere and equal amounts everywhere but at `change`. */
  predicate SameOutputs(a: seq<TxOut>, b: seq<TxOut>, change: nat) {
    |a| == |b| && forall i :: 0 <= i < |a| ==> a[i].script == b[i].script && (i != change ==> a[i].amount == b[i].amount)
  }

  predicate SameFamily(a: Tx, b: Tx, change: nat) {
    a.version == b.version && a.locktime == b.locktime
    && SameInputs(a.inputs, b.inputs) && SameOutputs(a.outputs, b.outputs, change)
  }

  predicate WithinCaps(fee: nat, tx: Tx, p: FeePolicy) {
    fee <= p.maximumFee && fee <= p.maximumRate * VirtualSize(tx)
  }

  /** What a replacement must look like, and the fee it pays; the caps are on the whole new fee. */
  predicate ReplacementAllowed(before: Tx, x: Exact, oldFee: nat, p: FeePolicy, fee: nat) {
    && p.changeVout.Some? && p.changeVout.value < |before.outputs|
    && SameFamily(before, x.tx, p.changeVout.value)
    && x.tx.outputs[p.changeVout.value].amount < before.outputs[p.changeVout.value].amount
    && fee == oldFee + (before.outputs[p.changeVout.value].amount - x.tx.outputs[p.changeVout.value].amount)
    && fee + (VirtualSize(x.tx) - 1) <= MAX_U64
    && WithinCaps(fee, x.tx, p)
  }

  /** Rounding a fee rate up keeps it under the cap exactly when the fee is at most cap times size. */
  lemma RateCap(fee: nat, vbytes: nat, rate: nat)
    requires vbytes > 0
    ensures (fee + (vbytes - 1)) / vbytes <= rate <==> fee <= rate * vbytes
  {
    var q := (fee + (vbytes - 1)) / vbytes;
    if q <= rate {
      TimesMonotone(q, rate, vbytes);
    } else {
      TimesMonotone(rate + 1, q, vbytes);
      assert (rate + 1) * vbytes == rate * vbytes + vbytes;
    }
  }

  method ValidateReplacement(before: Tx, x: Exact, oldFee: nat, p: FeePolicy)
    returns (r: Result<nat, ActuatorError>)
    ensures forall fee: nat :: r == Ok(fee) <==> ReplacementAllowed(before, x, oldFee, p, fee)
    ensures r.Err? ==> r.error == UnsafeReplacement
  {
    var after := x.tx;
    if before.version != after.version || before.locktime != after.locktime || |before.inputs| != |after.inputs|
       || |before.outputs| != |after.outputs| || p.changeVout.None? {
      return Err(UnsafeReplacement);
    }
    for i := 0 to |before.inputs|
      invariant forall k :: 0 <= k < i ==> SameInput(before.inputs[k], after.inputs[k])
    {
      if !SameInput(before.inputs[i], after.inputs[i]) {
        return Err(UnsafeReplacement);
      }
    }
    var change := p.changeVout.value;
    if change >= |before.outputs| {
      return Err(UnsafeReplacement);
    }
    var reduction := 0;
    for i := 0 to |before.outputs|
      invariant SameOutputs(before.outputs[..i], after.outputs[..i], change)
      invariant change < i ==> reduction == before.outputs[change].amount - after.outputs[change].amount > 0
    {
      var a, b := before.outputs[i], after.outputs[i];
      if a.script != b.script {
        return Err(UnsafeReplacement);
      }
      if i == change {
        if a.amount <= b.amount {
          return Err(UnsafeReplacement);
        }
        reduction := a.amount - b.amount;
      } else if a.amount != b.amount {
        return Err(UnsafeReplacement);
      }
    }
    assert before.outputs[..|before.outputs|] == before.outputs && after.outputs[..|after.outputs|] == after.outputs;
    var fee, vbytes := oldFee + reduction, VirtualSize(after);
    if fee > MAX_U64 || fee + (vbytes - 1) > MAX_U64 {
      return Err(UnsafeReplacement);
    }
    RateCap(fee, vbytes, p.maximumRate);
    if fee > p.maximumFee || (fee + (vbytes - 1)) / vbytes > p.maximumRate {
      return Err(UnsafeReplacement);
    }
    r := Ok(fee);
  }

  // ===== The attempt table

  /** Scopes that may differ only in the transaction they authorize. */
  predicate SameScopeFamily(a: Scope, b: Scope) {
    a == b.(expectedTxid := a.expectedTxid, intent := a.intent, digest := a.digest)
  }

  /** One row of the attempt table: a generation, the scope it ran under and the fee it pays. */
  datatype Attempt = Attempt(scope: Scope, exact: Exact, fee: nat)

  predicate Begins(a: Attempt) {
    TerminalAllowed(a.scope, a.exact) && a.fee == a.scope.policy.initialFee
  }

  predicate Replaces(a: Attempt, b: Attempt) {
    && SameScopeFamily(a.scope, b.scope)
    && b.scope.expectedTxid == b.exact.txid && b.scope.intent == b.exact.intent
    && ReplacementAllowed(a.exact.tx, b.exact, a.fee, a.scope.policy, b.fee)
  }

  /** The generations of one terminal operation: an accepted terminal transaction, then replacements. */
  predicate Chain(c: seq<Attempt>) {
    c != [] ==> Begins(c[0]) && forall i :: 0 < i < |c| ==> Replaces(c[i - 1], c[i])
  }

  datatype Stage = Prepared | MempoolObserved | Elsewhere

  /** One effect of the durable store: its stage and every generation recorded for it. */
  class Operation {
    var attempts: seq<Attempt>
    var stage: Stage

    predicate Valid()
      reads this
    {
      Chain(attempts)
    }

    constructor ()
      ensures Valid() && attempts == []
    {
      attempts := [];
      stage := Prepared;
    }

    /** Records generation zero; a repeated call with the same bytes changes nothing. */
    method PrepareTerminal(scope: Scope, exact: Exact) returns (r: Result<(), ActuatorError>)
      requires Valid()
      modifies this
      ensures Valid()
      ensures attempts == if r.Ok? && old(attempts) == [] then [Attempt(scope, exact, scope.policy.initialFee)]
                          else old(attempts)
      ensures r.Ok? <==> TerminalAllowed(scope, exact) && (old(attempts) != [] ==>
        var last := old(attempts)[|old(attempts)| - 1]; last.scope == scope && last.exact == exact)
      ensures r.Err? || old(attempts) != [] ==> stage == old(stage)
    {
      var _ :- ValidateTerminal(scope, exact);
      if attempts != [] {
        var last := attempts[|attempts| - 1];
        return if last.scope == scope && last.exact == exact then Ok(()) else Err(IdempotencyConflict);
      }
      attempts, stage := [Attempt(scope, exact, scope.policy.initialFee)], Prepared;
      r := Ok(());
    }

    /** Records one more generation, or refuses and changes nothing. */
    method PrepareReplacement(current: Scope, scope: Scope, exact: Exact) returns (r: Result<(), ActuatorError>)
      requires Valid()
      modifies this
      ensures Valid()
      ensures r.Err? ==> attempts == old(attempts) && stage == old(stage)
      ensures r.Ok? ==> stage == Prepared && old(attempts) != [] && exists fee ::
        && Replaces(old(attempts)[|old(attempts)| - 1], Attempt(scope, exact, fee))
        && attempts == old(attempts) + [Attempt(scope, exact, fee)]
      ensures r.Ok? <==> (
        && old(attempts) != [] && old(stage) == MempoolObserved
        && old(attempts)[|old(attempts)| - 1].scope == current
        && exists fee :: Replaces(old(attempts)[|old(attempts)| - 1], Attempt(scope, exact, fee)))
    {
      if !SameScopeFamily(current, scope) || scope.expectedTxid != exact.txid || scope.intent != exact.intent {
        return Err(UnsafeReplacement);
      }
      if attempts == [] {
        return Err(EffectNotFound);
      }
      var last := attempts[|attempts| - 1];
      if last.scope != current {
        return Err(IdempotencyConflict);
      }
      if stage != MempoolObserved {
        return Err(InvalidState);
      }
      var fee :- ValidateReplacement(last.exact.tx, exact, last.fee, current.policy);
      assert Replaces(last, Attempt(scope, exact, fee));
      attempts, stage := attempts + [Attempt(scope, exact, fee)], Prepared;
      r := Ok(());
    }
  }

  // ===== What every chain keeps

  /** Replacing one element replaces its amount in the total. */
  lemma {:induction false} TotalReplaced(a: seq<TxOut>, b: seq<TxOut>, change: nat)
    requires SameOutputs(a, b, change)
    ensures TotalAmount(a) + (if change < |a| then b[change].amount else 0)
         == TotalAmount(b) + (if change < |a| then a[change].amount else 0)
  {
    if a != [] {
      TotalReplaced(a[..|a| - 1], b[..|a| - 1], change);
    }
  }

  lemma SameFamilyTransitive(a: Tx, b: Tx, c: Tx, change: nat)
    requires SameFamily(a, b, change) && SameFamily(b, c, change)
    ensures SameFamily(a, c, change)
  {
    assert forall i :: 0 <= i < |a.inputs| ==> SameInput(a.inputs[i], b.inputs[i]) && SameInput(b.inputs[i], c.inputs[i]);
  }

  /** Everything generation `i` keeps from generation zero. */
  predicate Kept(zero: Attempt, a: Attempt) {
    && SameScopeFamily(zero.scope, a.scope)
    && TotalAmount(a.exact.tx.outputs) + a.fee == zero.scope.amount
    && (a.scope.policy.changeVout.Some? ==> SameFamily(zero.exact.tx, a.exact.tx, a.scope.policy.changeVout.value))
  }

  lemma {:induction false} ChainKeeps(c: seq<Attempt>, i: nat)
    requires Chain(c) && i < |c|
    ensures Kept(c[0], c[i])
  {
    if i > 0 {
      ChainKeeps(c, i - 1);
      var a, b := c[i - 1], c[i];
      assert Replaces(a, b);
      var change := a.scope.policy.changeVout.value;
      TotalReplaced(a.exact.tx.outputs, b.exact.tx.outputs, change);
      SameFamilyTransitive(c[0].exact.tx, a.exact.tx, b.exact.tx, change);
    }
  }

  lemma {:induction false} FeesGrow(c: seq<Attempt>, i: nat, j: nat)
    requires Chain(c) && i <= j < |c|
    ensures c[i].fee + (j - i) <= c[j].fee
  {
    if i < j {
      FeesGrow(c, i, j - 1);
      assert Replaces(c[j - 1], c[j]);
    }
  }

  /**
   Along every chain of accepted replacements the outputs and the fee add up to the contract amount,
   the fee strictly increases and stays within its absolute cap, each replacement stays within the
   rate cap as well, and every input, script and protected amount is that of generation zero.
   */
  lemma ReplacementSafety(c: seq<Attempt>, i: nat, j: nat)
    requires Chain(c) && i < j < |c|
    requires PolicyValid(c[0].scope.policy, MAX_U64)
    ensures TotalAmount(c[i].exact.tx.outputs) + c[i].fee == c[0].scope.amount
    ensures TotalAmount(c[j].exact.tx.outputs) + c[j].fee == c[0].scope.amount
    ensures c[i].fee < c[j].fee && WithinCaps(c[j].fee, c[j].exact.tx, c[0].scope.policy)
    ensures c[0].scope.policy.changeVout.Some?
      && SameFamily(c[0].exact.tx, c[j].exact.tx, c[0].scope.policy.changeVout.value)
  {
    ChainKeeps(c, i);
    ChainKeeps(c, j);
    ChainKeeps(c, j - 1);
    FeesGrow(c, i, j);
    assert Replaces(c[j - 1], c[j]);
  }

  /** Every generation has one input, and it spends the contract output of the scope, under the scope's own identity. */
  lemma ChainSpends(c: seq<Attempt>, i: nat)
    requires Chain(c) && i < |c| && c[0].scope.outpoint.Some?
    requires |c[0].scope.outpoint.value.txid| == 32 && c[0].scope.outpoint.value.vout < Pow256(4)
    ensures var o := c[0].scope.outpoint.value; var ins := c[i].exact.tx.inputs;
      && |ins| == 1 && ins[0].outpoint == o.txid + ToLE(o.vout, 4) && c[i].scope.outpoint == c[0].scope.outpoint
    ensures c[i].scope.expectedTxid == c[i].exact.txid && c[i].scope.intent == c[i].exact.intent
  {
    hide ToLE, FromLE, Pow256, TotalAmount;
    var o := c[0].scope.outpoint.value;
    SpendsExact(c[0].exact.tx.inputs[0], o);
    ChainKeeps(c, i);
    if i > 0 {
      assert Replaces(c[i - 1], c[i]);
      ChainKeeps(c, i - 1);
      assert SameInput(c[0].exact.tx.inputs[0], c[i].exact.tx.inputs[0]);
    }
  }

  /** There are at most maximum minus initial fee replacements, and never more than the change can pay for. */
  lemma ChainBounded(c: seq<Attempt>)
    requires Chain(c) && c != [] && PolicyValid(c[0].scope.policy, MAX_U64)
    ensures |c| - 1 <= c[0].scope.policy.maximumFee - c[0].scope.policy.initialFee
    ensures |c| > 1 ==>
      var p := c[0].scope.policy;
      && p.changeVout.Some? && p.changeVout.value < |c[0].exact.tx.outputs|
      && |c| - 1 <= c[0].exact.tx.outputs[p.changeVout.value].amount
  {
    var n := |c| - 1;
    FeesGrow(c, 0, n);
    if n > 0 {
      ReplacementSafety(c, 0, n);
      assert Replaces(c[0], c[1]);
      var change := c[0].scope.policy.changeVout.value;
      TotalReplaced(c[0].exact.tx.outputs, c[n].exact.tx.outputs, change);
    }
  }

  /** A claim has no change output and therefore no replacement: only a refund ever has a second generation. */
  lemma ClaimNeverReplaced(c: seq<Attempt>)
    requires Chain(c) && |c| > 1
    ensures c[0].scope.action == Refund
  {
    assert Replaces(c[0], c[1]);
  }

  /**
   Generation zero meets the absolute cap, but nothing checks its rate: every generation of a
   chain is within both caps exactly when the initial fee is within the rate cap of the first transaction.
   */
  lemma CapsFromTheStart(c: seq<Attempt>)
    requires Chain(c) && c != [] && PolicyValid(c[0].scope.policy, MAX_U64)
    ensures (forall i :: 0 <= i < |c| ==> WithinCaps(c[i].fee, c[i].exact.tx, c[0].scope.policy))
       <==> c[0].scope.policy.initialFee <= c[0].scope.policy.maximumRate * VirtualSize(c[0].exact.tx)
  {
    assert c[0].fee == c[0].scope.policy.initialFee;
    forall i | 0 < i < |c|
      ensures WithinCaps(c[i].fee, c[i].exact.tx, c[0].scope.policy)
    {
      ReplacementSafety(c, 0, i);
    }
  }

  /**
   A refund accepted as generation zero although it pays 1000 satoshis for 60 virtual bytes under a cap
   of 1 per byte, whatever its identity and the commitment to its bytes.
   */
  lemma InitialRateUnchecked(txid: Bytes, intent: Bytes) returns (a: Attempt)
    requires |txid| == |intent| == 32 && txid != ZERO32 && intent != ZERO32
    ensures a.exact.txid == txid && a.exact.intent == intent && Shaped(a.exact.tx)
    ensures Chain([a]) && PolicyValid(a.scope.policy, MAX_U64) && FieldsValid(a.scope)
    ensures a.fee == 1000 && VirtualSize(a.exact.tx) == 60 && !WithinCaps(a.fee, a.exact.tx, a.scope.policy)
  {
    var one := seq(32, i => 1);
    assert one[0] != ZERO32[0];
    var out := Outpoint(one, 0);
    var tx := Tx(Zeros(4), [TxIn(one + ToLE(0, 4), [], Zeros(4), [])], [TxOut(9000, [])], Zeros(4));
    var s := Scope(one, one, Upstream, Refund, 1, one, one, 1, one, one, one, one, Registry.BitcoinRegtest, one, one, txid, intent,
      Some(out), 10_000, None, FeePolicy(1000, 2000, 1, Some(0)), 1, 1, one);
    a := Attempt(s, Exact(tx, txid, intent), 1000);
    Pow256Values();
    SpendsExact(tx.inputs[0], out);
    assert TotalAmount(tx.outputs[..0]) == 0;
    assert InputsSize(tx.inputs[1..]) == 0 && OutputsSize(tx.outputs[1..]) == 0;
    assert BaseSize(tx) == 60;
  }
}
