/**
 The key-path signature message of scripts/bitcoin_claim_oracle.py and the
 double-and-add of its Schnorr verifier.
 */
module BitcoinSighash {
  import opened Wire
  import opened BitcoinTransaction

  // ASCII "TapSighash".
  const TAG: Bytes := [84, 97, 112, 83, 105, 103, 104, 97, 115, 104]

  /** One input of a transaction together with every output the transaction spends. */
  datatype Spend = Spend(tx: Tx, spent: seq<TxOut>, index: nat)

  predicate Packable(o: TxOut) {
    o.amount <= MAX_U64 && |o.script| <= MAX_U64
  }

  predicate AllPackable(outs: seq<TxOut>) {
    forall i :: 0 <= i < |outs| ==> Packable(outs[i])
  }

  predicate AllFixed(ins: seq<TxIn>) {
    forall i :: 0 <= i < |ins| ==> |ins[i].outpoint| == 36 && |ins[i].sequence| == 4
  }

  /** The widths a parsed transaction and its prevouts have. */
  predicate Sized(c: Spend) {
    && |c.tx.version| == 4 && |c.tx.locktime| == 4
    && AllFixed(c.tx.inputs) && AllPackable(c.tx.outputs) && AllPackable(c.spent)
    && c.index < 0x1_0000_0000
  }

  // ----- Joined fields

  function Outpoints(ins: seq<TxIn>): (s: Bytes) {
    if ins == [] then [] else ins[0].outpoint + Outpoints(ins[1..])
  }

  function Sequences(ins: seq<TxIn>): (s: Bytes) {
    if ins == [] then [] else ins[0].sequence + Sequences(ins[1..])
  }

  function Amounts(outs: seq<TxOut>): (s: Bytes) {
    if outs == [] then [] else ToLE(outs[0].amount, 8) + Amounts(outs[1..])
  }

  function Scripts(outs: seq<TxOut>): (s: Bytes)
    requires AllPackable(outs)
  {
    if outs == [] then [] else Vector(outs[0].script) + Scripts(outs[1..])
  }

  function OutputBytes(outs: seq<TxOut>): (s: Bytes)
    requires AllPackable(outs)
  {
    if outs == [] then []
    else ToLE(outs[0].amount, 8) + (Vector(outs[0].script) + OutputBytes(outs[1..]))
  }

  /** The "Common signature message" section of BIP 341 for SIGHASH_DEFAULT without annex. */
  function Message(sha: Bytes -> Bytes, c: Spend): Bytes
    requires Sized(c)
  {
    [0, 0] + (c.tx.version + (c.tx.locktime
      + (sha(Outpoints(c.tx.inputs)) + (sha(Amounts(c.spent)) + (sha(Scripts(c.spent))
      + (sha(Sequences(c.tx.inputs)) + (sha(OutputBytes(c.tx.outputs))
      + ([0] + ToLE(c.index, 4)))))))))
  }

  function TaggedPreimage(sha: Bytes -> Bytes, data: Bytes): Bytes {
    sha(TAG) + sha(TAG) + data
  }

  function Sighash(sha: Bytes -> Bytes, c: Spend): Result<Bytes, Refusal>
    requires Sized(c)
  {
    if |c.tx.inputs| != |c.spent| || c.index >= |c.tx.inputs| then Err(PrevoutContextMismatch)
    else Ok(sha(TaggedPreimage(sha, Message(sha, c))))
  }

  // ----- Where everything stands

  /** Where each field of the message sits, for a hash of 32 bytes. */
  lemma MessageLayout(sha: Bytes -> Bytes, c: Spend)
    requires Sized(c) && forall x :: |sha(x)| == 32
    ensures var m := Message(sha, c);
      && |m| == 175 && m[..2] == [0, 0] && m[2..6] == c.tx.version && m[6..10] == c.tx.locktime
      && m[10..42] == sha(Outpoints(c.tx.inputs)) && m[42..74] == sha(Amounts(c.spent)) && m[74..106] == sha(Scripts(c.spent))
      && m[106..138] == sha(Sequences(c.tx.inputs)) && m[138..170] == sha(OutputBytes(c.tx.outputs))
      && m[170] == 0 && FromLE(m[171..175]) == c.index
  {
    hide Outpoints, Amounts, Scripts, Sequences, OutputBytes, ToLE, FromLE;
    var m := Message(sha, c);
    var m8 := [0] + ToLE(c.index, 4);
    var m7 := sha(OutputBytes(c.tx.outputs)) + m8;
    var m6 := sha(Sequences(c.tx.inputs)) + m7;
    var m5 := sha(Scripts(c.spent)) + m6;
    var m4 := sha(Amounts(c.spent)) + m5;
    var m3 := sha(Outpoints(c.tx.inputs)) + m4;
    var m2 := c.tx.locktime + m3;
    Peel(m, 0, [0, 0], c.tx.version + m2);
    Peel(m, 2, c.tx.version, m2);
    Peel(m, 6, c.tx.locktime, m3);
    Peel(m, 10, sha(Outpoints(c.tx.inputs)), m4);
    Peel(m, 42, sha(Amounts(c.spent)), m5);
    Peel(m, 74, sha(Scripts(c.spent)), m6);
    Peel(m, 106, sha(Sequences(c.tx.inputs)), m7);
    Peel(m, 138, sha(OutputBytes(c.tx.outputs)), m8);
    Peel(m, 170, [0], ToLE(c.index, 4));
    assert m[170..171] == [m[170]];
    assert m[171..175] == m[171..];
    Pow256Values();
    ToLERoundTrip(c.index, 4);
  }

  /** Defined exactly when there is one spent output for every input and the index names an input. */
  lemma SighashDefined(sha: Bytes -> Bytes, c: Spend)
    requires Sized(c)
    ensures Sighash(sha, c).Ok? <==> |c.spent| == |c.tx.inputs| > c.index
  {
  }

  lemma TagBytes()
    ensures TAG == ToAscii("TapSighash")
  {
  }

  /** The digest is the hash of the tag's hash twice and then the message. */
  lemma SighashLayout(sha: Bytes -> Bytes, c: Spend)
    requires Sized(c) && (forall x :: |sha(x)| == 32) && Sighash(sha, c).Ok?
    ensures exists data ::
      && Sighash(sha, c) == Ok(sha(data)) && |data| == 239
      && data[..32] == sha(TAG) && data[32..64] == sha(TAG) && data[64..] == Message(sha, c)
  {
    MessageLayout(sha, c);
    hide Message;
    var data := TaggedPreimage(sha, Message(sha, c));
    assert data[..32] == sha(TAG) && data[32..64] == sha(TAG) && data[64..] == Message(sha, c);
    assert Sighash(sha, c) == Ok(sha(data));
  }

  /** Outpoints and sequences stand one after the other, in the order of the inputs. */
  lemma {:induction false} JoinedInputs(ins: seq<TxIn>, i: nat)
    requires AllFixed(ins) && i < |ins|
    ensures |Outpoints(ins)| == 36 * |ins| && Outpoints(ins)[36 * i..36 * i + 36] == ins[i].outpoint
    ensures |Sequences(ins)| == 4 * |ins| && Sequences(ins)[4 * i..4 * i + 4] == ins[i].sequence
  {
    if |ins| > 1 {
      var rest := ins[1..];
      JoinedInputs(rest, if i > 0 then i - 1 else 0);
      Shifted(ins[0].outpoint, Outpoints(rest), 36 * i - 36);
      Shifted(ins[0].sequence, Sequences(rest), 4 * i - 4);
    } else {
      assert Outpoints(ins[1..]) == [] && Sequences(ins[1..]) == [];
    }
  }

  lemma Shifted(x: Bytes, rest: Bytes, at: int)
    ensures (x + rest)[..|x|] == x
    ensures 0 <= at && at + |x| <= |rest| ==> (x + rest)[|x| + at..|x| + at + |x|] == rest[at..at + |x|]
  {
  }

  /** Amounts stand one after the other, eight bytes each, least significant first. */
  lemma {:induction false} JoinedAmounts(outs: seq<TxOut>, i: nat)
    requires AllPackable(outs) && i < |outs|
    ensures |Amounts(outs)| == 8 * |outs| && FromLE(Amounts(outs)[8 * i..8 * i + 8]) == outs[i].amount
  {
    hide ToLE, FromLE;
    Pow256Values();
    ToLERoundTrip(outs[0].amount, 8);
    if |outs| > 1 {
      JoinedAmounts(outs[1..], if i > 0 then i - 1 else 0);
      Shifted(ToLE(outs[0].amount, 8), Amounts(outs[1..]), 8 * i - 8);
    } else {
      assert Amounts(outs[1..]) == [];
    }
    Shifted(ToLE(outs[0].amount, 8), Amounts(outs[1..]), -1);
  }

  lemma VectorReads(data: Bytes, rest: Bytes)
    requires |data| <= MAX_U64
    ensures ReadCount(MAX_U64, Vector(data) + rest) == Good(|data|, data + rest)
  {
    hide ReadCount, Compact;
    assert Vector(data) + rest == Compact(|data|) + (data + rest);
    ReadCountInverse(MAX_U64, |data|, data + rest);
  }

  /** Each script stands behind its CompactSize. */
  lemma JoinedScripts(outs: seq<TxOut>)
    requires AllPackable(outs) && outs != []
    ensures ReadCount(MAX_U64, Scripts(outs)) == Good(|outs[0].script|, outs[0].script + Scripts(outs[1..]))
  {
    hide ReadCount, Vector;
    VectorReads(outs[0].script, Scripts(outs[1..]));
  }

  /** Each output is its amount, eight bytes, and then its script behind a CompactSize. */
  lemma JoinedOutputs(outs: seq<TxOut>)
    requires AllPackable(outs) && outs != []
    ensures |OutputBytes(outs)| >= 8 && FromLE(OutputBytes(outs)[..8]) == outs[0].amount
    ensures ReadCount(MAX_U64, OutputBytes(outs)[8..]) == Good(|outs[0].script|, outs[0].script + OutputBytes(outs[1..]))
  {
    hide ToLE, FromLE, ReadCount, Vector, Pow256;
    Pow256Values();
    ToLERoundTrip(outs[0].amount, 8);
    VectorReads(outs[0].script, OutputBytes(outs[1..]));
    Peel(OutputBytes(outs), 0, ToLE(outs[0].amount, 8), Vector(outs[0].script) + OutputBytes(outs[1..]));
  }

  // ----- What the digest commits to

  /** Everything that is hashed to sign `c`. */
  function Preimages(sha: Bytes -> Bytes, c: Spend): set<Bytes>
    requires Sized(c)
  {
    {Outpoints(c.tx.inputs), Amounts(c.spent), Scripts(c.spent), Sequences(c.tx.inputs),
     OutputBytes(c.tx.outputs), TaggedPreimage(sha, Message(sha, c))}
  }

  /** Equal in everything but script signatures and witnesses. */
  predicate SameSpend(a: Spend, b: Spend) {
    && a.tx.version == b.tx.version && a.tx.locktime == b.tx.locktime
    && |a.tx.inputs| == |b.tx.inputs|
    && (forall i :: 0 <= i < |a.tx.inputs| ==>
          && a.tx.inputs[i].outpoint == b.tx.inputs[i].outpoint
          && a.tx.inputs[i].sequence == b.tx.inputs[i].sequence)
    && a.spent == b.spent && a.tx.outputs == b.tx.outputs && a.index == b.index
  }

  lemma VectorSplit(x: Bytes, p: Bytes, y: Bytes, q: Bytes)
    requires |x| <= MAX_U64 && |y| <= MAX_U64
    requires Vector(x) + p == Vector(y) + q
    ensures x == y && p == q
  {
    assert Vector(x) + p == Compact(|x|) + (x + p);
    assert Vector(y) + q == Compact(|y|) + (y + q);
    ReadCountInverse(MAX_U64, |x|, x + p);
    ReadCountInverse(MAX_U64, |y|, y + q);
    SplitEqual(x, p, y, q);
  }

  lemma AmountSplit(v: nat, p: Bytes, w: nat, q: Bytes)
    requires v <= MAX_U64 && w <= MAX_U64
    requires ToLE(v, 8) + p == ToLE(w, 8) + q
    ensures v == w && p == q
  {
    SplitEqual(ToLE(v, 8), p, ToLE(w, 8), q);
    Pow256Values();
    ToLERoundTrip(v, 8);
    ToLERoundTrip(w, 8);
  }

  lemma {:induction false} OutpointsInjective(a: seq<TxIn>, b: seq<TxIn>)
    requires AllFixed(a) && AllFixed(b)
    requires Outpoints(a) == Outpoints(b)
    ensures |a| == |b| && forall i :: 0 <= i < |a| ==> a[i].outpoint == b[i].outpoint
    decreases |a|
  {
    if a != [] && b != [] {
      SplitEqual(a[0].outpoint, Outpoints(a[1..]), b[0].outpoint, Outpoints(b[1..]));
      OutpointsInjective(a[1..], b[1..]);
    }
  }

  lemma {:induction false} SequencesInjective(a: seq<TxIn>, b: seq<TxIn>)
    requires AllFixed(a) && AllFixed(b)
    requires Sequences(a) == Sequences(b)
    ensures |a| == |b| && forall i :: 0 <= i < |a| ==> a[i].sequence == b[i].sequence
    decreases |a|
  {
    if a != [] && b != [] {
      SplitEqual(a[0].sequence, Sequences(a[1..]), b[0].sequence, Sequences(b[1..]));
      SequencesInjective(a[1..], b[1..]);
    }
  }

  lemma {:induction false} AmountsInjective(a: seq<TxOut>, b: seq<TxOut>)
    requires AllPackable(a) && AllPackable(b)
    requires Amounts(a) == Amounts(b)
    ensures |a| == |b| && forall i :: 0 <= i < |a| ==> a[i].amount == b[i].amount
    decreases |a|
  {
    hide ToLE;
    if a != [] && b != [] {
      AmountSplit(a[0].amount, Amounts(a[1..]), b[0].amount, Amounts(b[1..]));
      AmountsInjective(a[1..], b[1..]);
    }
  }

  lemma {:induction false} ScriptsInjective(a: seq<TxOut>, b: seq<TxOut>)
    requires AllPackable(a) && AllPackable(b)
    requires Scripts(a) == Scripts(b)
    ensures |a| == |b| && forall i :: 0 <= i < |a| ==> a[i].script == b[i].script
    decreases |a|
  {
    if a != [] && b != [] {
      VectorSplit(a[0].script, Scripts(a[1..]), b[0].script, Scripts(b[1..]));
      ScriptsInjective(a[1..], b[1..]);
    }
  }

  lemma {:induction false} OutputBytesInjective(a: seq<TxOut>, b: seq<TxOut>)
    requires AllPackable(a) && AllPackable(b)
    requires OutputBytes(a) == OutputBytes(b)
    ensures a == b
    decreases |a|
  {
    hide ToLE, Vector;
    if a != [] && b != [] {
      AmountSplit(a[0].amount, Vector(a[0].script) + OutputBytes(a[1..]),
                  b[0].amount, Vector(b[0].script) + OutputBytes(b[1..]));
      VectorSplit(a[0].script, OutputBytes(a[1..]), b[0].script, OutputBytes(b[1..]));
      OutputBytesInjective(a[1..], b[1..]);
      assert a == [a[0]] + a[1..] && b == [b[0]] + b[1..];
    }
  }

  /** The fields of equal messages are equal, piece by piece. */
  lemma MessagePieces(sha: Bytes -> Bytes, a: Spend, b: Spend)
    requires Sized(a) && Sized(b)
    requires forall x :: |sha(x)| == 32
    requires Message(sha, a) == Message(sha, b)
    ensures a.tx.version == b.tx.version && a.tx.locktime == b.tx.locktime && a.index == b.index
    ensures sha(Outpoints(a.tx.inputs)) == sha(Outpoints(b.tx.inputs))
    ensures sha(Amounts(a.spent)) == sha(Amounts(b.spent))
    ensures sha(Scripts(a.spent)) == sha(Scripts(b.spent))
    ensures sha(Sequences(a.tx.inputs)) == sha(Sequences(b.tx.inputs))
    ensures sha(OutputBytes(a.tx.outputs)) == sha(OutputBytes(b.tx.outputs))
  {
    hide Outpoints, Amounts, Scripts, Sequences, OutputBytes, ToLE;
    var a8, b8 := [0] + ToLE(a.index, 4), [0] + ToLE(b.index, 4);
    var a7, b7 := sha(OutputBytes(a.tx.outputs)) + a8, sha(OutputBytes(b.tx.outputs)) + b8;
    var a6, b6 := sha(Sequences(a.tx.inputs)) + a7, sha(Sequences(b.tx.inputs)) + b7;
    var a5, b5 := sha(Scripts(a.spent)) + a6, sha(Scripts(b.spent)) + b6;
    var a4, b4 := sha(Amounts(a.spent)) + a5, sha(Amounts(b.spent)) + b5;
    var a3, b3 := sha(Outpoints(a.tx.inputs)) + a4, sha(Outpoints(b.tx.inputs)) + b4;
    var a2, b2 := a.tx.locktime + a3, b.tx.locktime + b3;
    SplitEqual([0, 0], a.tx.version + a2, [0, 0], b.tx.version + b2);
    SplitEqual(a.tx.version, a2, b.tx.version, b2);
    SplitEqual(a.tx.locktime, a3, b.tx.locktime, b3);
    SplitEqual(sha(Outpoints(a.tx.inputs)), a4, sha(Outpoints(b.tx.inputs)), b4);
    SplitEqual(sha(Amounts(a.spent)), a5, sha(Amounts(b.spent)), b5);
    SplitEqual(sha(Scripts(a.spent)), a6, sha(Scripts(b.spent)), b6);
    SplitEqual(sha(Sequences(a.tx.inputs)), a7, sha(Sequences(b.tx.inputs)), b7);
    SplitEqual(sha(OutputBytes(a.tx.outputs)), a8, sha(OutputBytes(b.tx.outputs)), b8);
    SplitEqual([0], ToLE(a.index, 4), [0], ToLE(b.index, 4));
    Pow256Values();
    ToLERoundTrip(a.index, 4);
    ToLERoundTrip(b.index, 4);
  }

  lemma {:induction false} SameInputsJoinAlike(a: seq<TxIn>, b: seq<TxIn>)
    requires |a| == |b|
    requires forall i :: 0 <= i < |a| ==> a[i].outpoint == b[i].outpoint && a[i].sequence == b[i].sequence
    ensures Outpoints(a) == Outpoints(b) && Sequences(a) == Sequences(b)
    decreases |a|
  {
    if a != [] {
      SameInputsJoinAlike(a[1..], b[1..]);
    }
  }

  /**
   Two signing digests agree exactly when every committed field agrees, as long as the hash does
   not collide on the strings these two digests are made from.
   */
  lemma SighashCommits(sha: Bytes -> Bytes, a: Spend, b: Spend)
    requires Sized(a) && Sized(b)
    requires forall x :: |sha(x)| == 32
    requires Sighash(sha, a).Ok? && Sighash(sha, b).Ok?
    requires InjectiveOn(sha, Preimages(sha, a) + Preimages(sha, b))
    ensures Sighash(sha, a) == Sighash(sha, b) <==> SameSpend(a, b)
  {
    hide Outpoints, Amounts, Scripts, Sequences, OutputBytes, ToLE, Message;
    if Sighash(sha, a) == Sighash(sha, b) {
      SplitEqual(sha(TAG) + sha(TAG), Message(sha, a), sha(TAG) + sha(TAG), Message(sha, b));
      MessagePieces(sha, a, b);
      OutpointsInjective(a.tx.inputs, b.tx.inputs);
      SequencesInjective(a.tx.inputs, b.tx.inputs);
      AmountsInjective(a.spent, b.spent);
      ScriptsInjective(a.spent, b.spent);
      OutputBytesInjective(a.tx.outputs, b.tx.outputs);
    }
    if SameSpend(a, b) {
      SameInputsJoinAlike(a.tx.inputs, b.tx.inputs);
      SameMessage(sha, a, b);
    }
  }

  lemma SameMessage(sha: Bytes -> Bytes, a: Spend, b: Spend)
    requires Sized(a) && Sized(b) && SameSpend(a, b)
    requires Outpoints(a.tx.inputs) == Outpoints(b.tx.inputs)
    requires Sequences(a.tx.inputs) == Sequences(b.tx.inputs)
    ensures Message(sha, a) == Message(sha, b)
  {
  }

  // ===== Double-and-add

  /** `n` copies of `p` added up. */
  function Times<G>(add: (G, G) -> G, zero: G, n: nat, p: G): G {
    if n == 0 then zero else add(Times(add, zero, n - 1, p), p)
  }

  ghost predicate Monoid<G(!new)>(add: (G, G) -> G, zero: G) {
    && (forall a, b, c :: add(add(a, b), c) == add(a, add(b, c)))
    && (forall a :: add(zero, a) == a && add(a, zero) == a)
  }

  lemma Associate<G(!new)>(add: (G, G) -> G, zero: G, a: G, b: G, c: G)
    requires Monoid(add, zero)
    ensures add(add(a, b), c) == add(a, add(b, c)) && add(zero, a) == a && add(a, zero) == a
  {
  }

  lemma {:induction false} TimesSum<G(!new)>(add: (G, G) -> G, zero: G, m: nat, n: nat, p: G)
    requires Monoid(add, zero)
    ensures Times(add, zero, m + n, p) == add(Times(add, zero, m, p), Times(add, zero, n, p))
    decreases n
  {
    hide Monoid;
    if n == 0 {
      Associate(add, zero, Times(add, zero, m, p), zero, zero);
    } else {
      TimesSum(add, zero, m, n - 1, p);
      assert m + n - 1 == m + (n - 1);
      Associate(add, zero, Times(add, zero, m, p), Times(add, zero, n - 1, p), p);
    }
  }

  lemma TimesSmall<G(!new)>(add: (G, G) -> G, zero: G, p: G)
    requires Monoid(add, zero)
    ensures Times(add, zero, 1, p) == p && Times(add, zero, 2, p) == add(p, p)
  {
    hide Monoid;
    assert Times(add, zero, 1, p) == add(Times(add, zero, 0, p), p);
    Associate(add, zero, p, zero, zero);
  }

  lemma {:induction false} TimesDouble<G(!new)>(add: (G, G) -> G, zero: G, n: nat, p: G)
    requires Monoid(add, zero)
    ensures Times(add, zero, n, add(p, p)) == Times(add, zero, 2 * n, p)
    decreases n
  {
    hide Monoid;
    if n > 0 {
      TimesDouble(add, zero, n - 1, p);
      TimesSmall(add, zero, p);
      TimesSum(add, zero, 2 * (n - 1), 2, p);
      assert 2 * (n - 1) + 2 == 2 * n;
    }
  }

  /** Computes the scalar multiple in as many rounds as the scalar has bits. */
  method Multiply<G(!new)>(add: (G, G) -> G, zero: G, scalar: nat, point: G) returns (result: G)
    requires Monoid(add, zero)
    ensures result == Times(add, zero, scalar, point)
  {
    hide Monoid;
    result := zero;
    var k, p := scalar, point;
    Associate(add, zero, Times(add, zero, scalar, point), zero, zero);
    while k != 0
      invariant add(result, Times(add, zero, k, p)) == Times(add, zero, scalar, point)
      decreases k
    {
      ghost var left := Times(add, zero, k / 2, add(p, p));
      TimesDouble(add, zero, k / 2, p);
      TimesSmall(add, zero, p);
      TimesSum(add, zero, k % 2, 2 * (k / 2), p);
      Associate(add, zero, left, zero, zero);
      if k % 2 == 1 {
        Associate(add, zero, result, p, left);
        result := add(result, p);
      }
      p := add(p, p);
      k := k / 2;
    }
    Associate(add, zero, result, zero, zero);
  }
}
