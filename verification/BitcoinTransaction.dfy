/**
 The offline Bitcoin transaction parser of scripts/bitcoin_claim_oracle.py:
 CompactSize, the BIP 144 layout, BIP 141 weight.
 */
module BitcoinTransaction {
  import opened Wire

  const MAX_BYTES := 4_000_000
  const MAX_MONEY := 21_000_000 * 100_000_000
  const MAX_ITEMS := 100_000

  datatype Refusal =
    | SizeOutOfBounds | Truncated | NonCanonicalCompactSize | VectorBoundExceeded
    | UnsupportedWitnessFlags | NoInputs | DuplicateInput | NoOutputs | AmountOutOfRange
    | SuperfluousWitness | TrailingBytes | PrevoutContextMismatch

  datatype TxIn = TxIn(outpoint: Bytes, script: Bytes, sequence: Bytes, stack: seq<Bytes>)
  datatype TxOut = TxOut(amount: nat, script: Bytes)
  datatype Tx = Tx(version: Bytes, inputs: seq<TxIn>, outputs: seq<TxOut>, locktime: Bytes)

  // ===== Serialization: the "Serialization" section of BIP 144

  function Compact(v: nat): (s: Bytes)
    requires v <= MAX_U64
    ensures s != []
  {
    if v < 253 then [v]
    else if v <= 0xFFFF then [253] + ToLE(v, 2)
    else if v <= 0xFFFF_FFFF then [254] + ToLE(v, 4)
    else [255] + ToLE(v, 8)
  }

  function Vector(data: Bytes): Bytes
    requires |data| <= MAX_U64
  {
    Compact(|data|) + data
  }

  /** One byte below 253, else a marker and two, four or eight bytes, least significant first. */
  lemma CompactLayout(v: nat)
    requires v <= MAX_U64
    ensures v < 253 ==> Compact(v) == [v]
    ensures v >= 253 ==>
      var s := Compact(v);
      && |s| == (if v <= 0xFFFF then 3 else if v <= 0xFFFF_FFFF then 5 else 9)
      && s[0] == (if v <= 0xFFFF then 253 else if v <= 0xFFFF_FFFF then 254 else 255) && FromLE(s[1..]) == v
  {
    hide ToLE, FromLE;
    Pow256Values();
    if v >= 253 {
      var n := if v <= 0xFFFF then 2 else if v <= 0xFFFF_FFFF then 4 else 8;
      ToLERoundTrip(v, n);
      assert Compact(v)[1..] == ToLE(v, n);
    }
  }

  predicate InputFits(x: TxIn) {
    && |x.outpoint| == 36 && |x.sequence| == 4
    && |x.script| <= MAX_BYTES
    && |x.stack| <= MAX_ITEMS
    && forall w :: w in x.stack ==> |w| <= MAX_BYTES
  }

  predicate OutputFits(o: TxOut) {
    o.amount <= MAX_MONEY && |o.script| <= MAX_BYTES
  }

  predicate InputsFit(ins: seq<TxIn>) {
    forall i :: 0 <= i < |ins| ==> InputFits(ins[i])
  }

  predicate OutputsFit(outs: seq<TxOut>) {
    forall i :: 0 <= i < |outs| ==> OutputFits(outs[i])
  }

  // Each serializer puts its fields in front of the bytes that follow.

  function PutInputs(ins: seq<TxIn>, rest: Bytes): Bytes
    requires InputsFit(ins)
  {
    if ins == [] then rest
    else ins[0].outpoint + (Vector(ins[0].script) + (ins[0].sequence + PutInputs(ins[1..], rest)))
  }

  function PutOutputs(outs: seq<TxOut>, rest: Bytes): Bytes
    requires OutputsFit(outs)
  {
    if outs == [] then rest
    else ToLE(outs[0].amount, 8) + (Vector(outs[0].script) + PutOutputs(outs[1..], rest))
  }

  function PutStack(items: seq<Bytes>, rest: Bytes): Bytes
    requires forall w :: w in items ==> |w| <= MAX_BYTES
  {
    if items == [] then rest else Vector(items[0]) + PutStack(items[1..], rest)
  }

  function PutWitnesses(ins: seq<TxIn>, rest: Bytes): Bytes
    requires InputsFit(ins)
  {
    if ins == [] then rest
    else Compact(|ins[0].stack|) + PutStack(ins[0].stack, PutWitnesses(ins[1..], rest))
  }

  predicate HasWitness(ins: seq<TxIn>) {
    exists i :: 0 <= i < |ins| && ins[i].stack != []
  }

  predicate Shaped(tx: Tx) {
    && |tx.version| == 4 && |tx.locktime| == 4
    && 0 < |tx.inputs| <= MAX_ITEMS && 0 < |tx.outputs| <= MAX_ITEMS
    && InputsFit(tx.inputs) && OutputsFit(tx.outputs)
  }

  /** Version, inputs, outputs and locktime without marker, flag or witnesses. */
  function Stripped(tx: Tx): Bytes
    requires Shaped(tx)
  {
    tx.version + (Compact(|tx.inputs|) + PutInputs(tx.inputs,
      Compact(|tx.outputs|) + PutOutputs(tx.outputs, tx.locktime)))
  }

  /** The extended form, used exactly when some input carries a witness. */
  function Extended(tx: Tx): Bytes
    requires Shaped(tx)
  {
    tx.version + ([0, 1] + (Compact(|tx.inputs|) + PutInputs(tx.inputs,
      Compact(|tx.outputs|) + PutOutputs(tx.outputs, PutWitnesses(tx.inputs, tx.locktime)))))
  }

  function Serialize(tx: Tx): Bytes
    requires Shaped(tx)
  {
    if HasWitness(tx.inputs) then Extended(tx) else Stripped(tx)
  }

  // ----- Where everything stands

  /** Previous output, script behind its size, sequence, and then the next input. */
  lemma InputLayout(ins: seq<TxIn>, rest: Bytes)
    requires InputsFit(ins) && ins != []
    ensures var m, n := PutInputs(ins, rest), |Compact(|ins[0].script|)|; var a := 36 + n + |ins[0].script|;
      && |m| >= a + 4 && m[..36] == ins[0].outpoint && m[36..36 + n] == Compact(|ins[0].script|)
      && m[36 + n..a] == ins[0].script && m[a..a + 4] == ins[0].sequence && m[a + 4..] == PutInputs(ins[1..], rest)
  {
    hide Compact, Vector;
    var m, x, next := PutInputs(ins, rest), ins[0], PutInputs(ins[1..], rest);
    VectorParts(x.script, x.sequence + next);
    InputParts(m, x.outpoint, Compact(|x.script|), x.script, x.sequence, next);
  }

  lemma VectorParts(script: Bytes, rest: Bytes)
    requires |script| <= MAX_BYTES
    ensures Vector(script) + rest == Compact(|script|) + (script + rest)
  {
    hide Compact;
  }

  lemma InputParts(m: Bytes, outpoint: Bytes, size: Bytes, script: Bytes, sequence: Bytes, next: Bytes)
    requires m == outpoint + (size + (script + (sequence + next)))
    ensures var a := |outpoint| + |size|; var b := a + |script|;
      && |m| >= b + |sequence| && m[..|outpoint|] == outpoint && m[|outpoint|..a] == size && m[a..b] == script
      && m[b..b + |sequence|] == sequence && m[b + |sequence|..] == next
  {
    assert m[0..] == m;
    Peel(m, 0, outpoint, size + (script + (sequence + next)));
    Peel(m, |outpoint|, size, script + (sequence + next));
    Peel(m, |outpoint| + |size|, script, sequence + next);
    Peel(m, |outpoint| + |size| + |script|, sequence, next);
  }

  /** The amount in eight bytes, least significant first, the script behind its size, and then the next output. */
  lemma OutputLayout(outs: seq<TxOut>, rest: Bytes)
    requires OutputsFit(outs) && outs != []
    ensures var m, n := PutOutputs(outs, rest), |Compact(|outs[0].script|)|; var a := 8 + n + |outs[0].script|;
      && |m| >= a && FromLE(m[..8]) == outs[0].amount && m[8..8 + n] == Compact(|outs[0].script|)
      && m[8 + n..a] == outs[0].script && m[a..] == PutOutputs(outs[1..], rest)
  {
    hide Compact, ToLE, FromLE;
    Pow256Values();
    var m, x, next := PutOutputs(outs, rest), outs[0], PutOutputs(outs[1..], rest);
    ToLERoundTrip(x.amount, 8);
    var n := |Compact(|x.script|)|;
    assert m[0..] == m;
    Peel(m, 0, ToLE(x.amount, 8), Vector(x.script) + next);
    assert Vector(x.script) + next == Compact(|x.script|) + (x.script + next);
    Peel(m, 8, Compact(|x.script|), x.script + next);
    Peel(m, 8 + n, x.script, next);
  }

  /** For each input the number of its witness items, and each item behind its size. */
  lemma WitnessLayout(ins: seq<TxIn>, items: seq<Bytes>, rest: Bytes)
    requires InputsFit(ins) && ins != [] && items != [] && forall w :: w in items ==> |w| <= MAX_BYTES
    ensures var m, n := PutWitnesses(ins, rest), |Compact(|ins[0].stack|)|;
      |m| >= n && m[..n] == Compact(|ins[0].stack|) && m[n..] == PutStack(ins[0].stack, PutWitnesses(ins[1..], rest))
    ensures var m, n := PutStack(items, rest), |Compact(|items[0]|)|;
      && |m| >= n + |items[0]| && m[..n] == Compact(|items[0]|) && m[n..n + |items[0]|] == items[0]
      && m[n + |items[0]|..] == PutStack(items[1..], rest)
  {
    hide Compact;
    var m := PutWitnesses(ins, rest);
    assert m[0..] == m;
    Peel(m, 0, Compact(|ins[0].stack|), PutStack(ins[0].stack, PutWitnesses(ins[1..], rest)));
    var k, w, next := PutStack(items, rest), items[0], PutStack(items[1..], rest);
    assert Vector(w) + next == Compact(|w|) + (w + next);
    assert k[0..] == k;
    Peel(k, 0, Compact(|w|), w + next);
    Peel(k, |Compact(|w|)|, w, next);
  }

  /**
   Version, then marker and flag exactly when some input carries a witness, the counted inputs and outputs,
   then the witnesses, then the lock time.
   */
  lemma TransactionLayout(tx: Tx)
    requires Shaped(tx)
    ensures var m := Serialize(tx); var a := if HasWitness(tx.inputs) then 6 else 4; var n := |Compact(|tx.inputs|)|;
      && |m| >= a + n && m[..4] == tx.version && (HasWitness(tx.inputs) ==> m[4] == 0 && m[5] == 1)
      && m[a..a + n] == Compact(|tx.inputs|)
      && m[a + n..] == PutInputs(tx.inputs, Compact(|tx.outputs|) + PutOutputs(tx.outputs,
           if HasWitness(tx.inputs) then PutWitnesses(tx.inputs, tx.locktime) else tx.locktime))
  {
    hide Compact, PutInputs, PutOutputs, PutWitnesses, HasWitness, InputsFit, OutputsFit;
    var m := Serialize(tx);
    assert m[0..] == m;
    if HasWitness(tx.inputs) {
      var ins := PutInputs(tx.inputs, Compact(|tx.outputs|) + PutOutputs(tx.outputs, PutWitnesses(tx.inputs, tx.locktime)));
      Peel(m, 0, tx.version, [0, 1] + (Compact(|tx.inputs|) + ins));
      Peel(m, 4, [0, 1], Compact(|tx.inputs|) + ins);
      assert m[4..6] == [m[4], m[5]];
      Peel(m, 6, Compact(|tx.inputs|), ins);
    } else {
      var ins := PutInputs(tx.inputs, Compact(|tx.outputs|) + PutOutputs(tx.outputs, tx.locktime));
      Peel(m, 0, tx.version, Compact(|tx.inputs|) + ins);
      Peel(m, 4, Compact(|tx.inputs|), ins);
    }
  }

  function TotalAmount(outs: seq<TxOut>): nat {
    if outs == [] then 0 else TotalAmount(outs[..|outs| - 1]) + outs[|outs| - 1].amount
  }

  predicate DistinctOutpoints(ins: seq<TxIn>) {
    forall i, j :: 0 <= i < j < |ins| ==> ins[i].outpoint != ins[j].outpoint
  }

  /** The transactions the verifier admits. */
  predicate Admissible(tx: Tx) {
    && Shaped(tx)
    && DistinctOutpoints(tx.inputs)
    && TotalAmount(tx.outputs) <= MAX_MONEY
    && |Serialize(tx)| <= MAX_BYTES
  }

  // ===== Parsing

  function ReadInteger(n: nat, s: Bytes): Parsed<nat, Refusal> {
    var (b, s) :- Take(n, s, Truncated);
    Good(FromLE(b), s)
  }

  function ReadCount(limit: nat, s: Bytes): Parsed<nat, Refusal> {
    var (prefix, s) :- ReadInteger(1, s);
    if prefix < 253 then
      if prefix <= limit then Good(prefix, s) else Bad(VectorBoundExceeded)
    else
      var width := if prefix == 253 then 2 else if prefix == 254 then 4 else 8;
      var least := if prefix == 253 then 253 else if prefix == 254 then 0x1_0000 else 0x1_0000_0000;
      var (v, s) :- ReadInteger(width, s);
      if v < least then Bad(NonCanonicalCompactSize)
      else if v <= limit then Good(v, s) else Bad(VectorBoundExceeded)
  }

  function ReadBlob(s: Bytes): Parsed<Bytes, Refusal> {
    var (n, s) :- ReadCount(MAX_BYTES, s);
    Take(n, s, Truncated)
  }

  function Outpoints(ins: seq<TxIn>): set<Bytes> {
    set x | x in ins :: x.outpoint
  }

  function ReadInput(seen: set<Bytes>, s: Bytes): Parsed<TxIn, Refusal> {
    var (outpoint, s) :- Take(36, s, Truncated);
    if outpoint in seen then Bad(DuplicateInput) else
    var (script, s) :- ReadBlob(s);
    var (sequence, s) :- Take(4, s, Truncated);
    Good(TxIn(outpoint, script, sequence, []), s)
  }

  function ReadInputs(n: nat, got: seq<TxIn>, s: Bytes): Parsed<seq<TxIn>, Refusal> {
    if n == 0 then Good(got, s) else
    var (x, s) :- ReadInput(Outpoints(got), s);
    ReadInputs(n - 1, got + [x], s)
  }

  function ReadOutput(total: nat, s: Bytes): Parsed<TxOut, Refusal> {
    var (amount, s) :- ReadInteger(8, s);
    if amount > MAX_MONEY || total + amount > MAX_MONEY then Bad(AmountOutOfRange) else
    var (script, s) :- ReadBlob(s);
    Good(TxOut(amount, script), s)
  }

  function ReadOutputs(n: nat, got: seq<TxOut>, s: Bytes): Parsed<seq<TxOut>, Refusal> {
    if n == 0 then Good(got, s) else
    var (o, s) :- ReadOutput(TotalAmount(got), s);
    ReadOutputs(n - 1, got + [o], s)
  }

  function ReadStack(n: nat, got: seq<Bytes>, s: Bytes): Parsed<seq<Bytes>, Refusal> {
    if n == 0 then Good(got, s) else
    var (w, s) :- ReadBlob(s);
    ReadStack(n - 1, got + [w], s)
  }

  function ReadWitnesses(todo: seq<TxIn>, got: seq<TxIn>, s: Bytes): Parsed<seq<TxIn>, Refusal> {
    if todo == [] then Good(got, s) else
    var (n, s) :- ReadCount(MAX_ITEMS, s);
    var (w, s) :- ReadStack(n, [], s);
    ReadWitnesses(todo[1..], got + [todo[0].(stack := w)], s)
  }

  function ReadMarker(s: Bytes): Parsed<bool, Refusal> {
    if |s| == 0 || s[0] != 0 then Good(false, s) else
    var (flags, s) :- Take(2, s, Truncated);
    if flags == [0, 1] then Good(true, s) else Bad(UnsupportedWitnessFlags)
  }

  function ReadAllWitnesses(segwit: bool, ins: seq<TxIn>, s: Bytes): Parsed<seq<TxIn>, Refusal> {
    if !segwit then Good(ins, s) else
    var (ins, s) :- ReadWitnesses(ins, [], s);
    if HasWitness(ins) then Good(ins, s) else Bad(SuperfluousWitness)
  }

  function ReadTransaction(s: Bytes): Parsed<Tx, Refusal> {
    var (version, s) :- Take(4, s, Truncated);
    var (segwit, s) :- ReadMarker(s);
    var (count, s) :- ReadCount(MAX_ITEMS, s);
    if count == 0 then Bad(NoInputs) else
    var (ins, s) :- ReadInputs(count, [], s);
    var (countOutputs, s) :- ReadCount(MAX_ITEMS, s);
    if countOutputs == 0 then Bad(NoOutputs) else
    var (outs, s) :- ReadOutputs(countOutputs, [], s);
    var (ins, s) :- ReadAllWitnesses(segwit, ins, s);
    var (locktime, s) :- Take(4, s, Truncated);
    Good(Tx(version, ins, outs, locktime), s)
  }

  function Parse(raw: Bytes): Result<Tx, Refusal> {
    if !(0 < |raw| <= MAX_BYTES) then Err(SizeOutOfBounds) else
    match ReadTransaction(raw)
    case Bad(e) => Err(e)
    case Good(tx, rest) => if rest == [] then Ok(tx) else Err(TrailingBytes)
  }

  // ===== Reading undoes writing, and writing undoes reading

  lemma ReadIntegerInverse(n: nat, v: nat, rest: Bytes)
    requires v < Pow256(n)
    ensures ReadInteger(n, ToLE(v, n) + rest) == Good(v, rest)
  {
    TakePrefix(ToLE(v, n), rest, Truncated);
    ToLERoundTrip(v, n);
  }

  lemma ReadIntegerSound(n: nat, s: Bytes)
    requires ReadInteger(n, s).Good?
    ensures var r := ReadInteger(n, s);
      s == ToLE(r.value, n) + r.rest && r.value < Pow256(n)
  {
    FromLERoundTrip(s[..n]);
  }

  lemma ReadOneByte(b: Byte, rest: Bytes)
    ensures ReadInteger(1, [b] + rest) == Good(b, rest)
  {
    assert ToLE(b, 1) == [b] by { assert ToLE(b / 256, 0) == []; }
    Pow256Values();
    ReadIntegerInverse(1, b, rest);
  }

  lemma ReadCountInverse(limit: nat, v: nat, rest: Bytes)
    requires v <= MAX_U64
    ensures ReadCount(limit, Compact(v) + rest) == if v <= limit then Good(v, rest) else Bad(VectorBoundExceeded)
  {
    Pow256Values();
    hide Pow256, ToLE, ReadInteger;
    if v < 253 {
      ReadOneByte(v, rest);
    } else {
      var prefix := if v <= 0xFFFF then 253 else if v <= 0xFFFF_FFFF then 254 else 255;
      var width := if v <= 0xFFFF then 2 else if v <= 0xFFFF_FFFF then 4 else 8;
      assert Compact(v) + rest == [prefix] + (ToLE(v, width) + rest);
      ReadOneByte(prefix, ToLE(v, width) + rest);
      ReadIntegerInverse(width, v, rest);
    }
  }

  lemma ReadOneByteSound(s: Bytes)
    requires ReadInteger(1, s).Good?
    ensures var r := ReadInteger(1, s); r.value < 256 && s == [r.value] + r.rest
  {
    Pow256Values();
    ReadIntegerSound(1, s);
    var v := ReadInteger(1, s).value;
    assert ToLE(v, 1) == [v] by { assert ToLE(v / 256, 0) == []; }
  }

  lemma ReadCountSound(limit: nat, s: Bytes)
    requires ReadCount(limit, s).Good?
    ensures var r := ReadCount(limit, s);
      r.value <= limit && r.value <= MAX_U64 && s == Compact(r.value) + r.rest
  {
    Pow256Values();
    hide Pow256, ToLE, ReadInteger;
    ReadOneByteSound(s);
    var (prefix, s1) := ReadInteger(1, s).Extract();
    if prefix >= 253 {
      var width := if prefix == 253 then 2 else if prefix == 254 then 4 else 8;
      ReadIntegerSound(width, s1);
    }
  }

  lemma ReadBlobInverse(x: Bytes, rest: Bytes)
    requires |x| <= MAX_BYTES
    ensures ReadBlob(Vector(x) + rest) == Good(x, rest)
  {
    hide Compact, ReadCount;
    assert Vector(x) + rest == Compact(|x|) + (x + rest);
    ReadCountInverse(MAX_BYTES, |x|, x + rest);
    TakePrefix(x, rest, Truncated);
  }

  lemma ReadBlobSound(s: Bytes)
    requires ReadBlob(s).Good?
    ensures var r := ReadBlob(s);
      |r.value| <= MAX_BYTES && s == Vector(r.value) + r.rest
  {
    hide Compact, ReadCount;
    ReadCountSound(MAX_BYTES, s);
    var (n, s1) := ReadCount(MAX_BYTES, s).Extract();
    assert s1 == s1[..n] + s1[n..];
  }

  // --- inputs

  function Bare(x: TxIn): TxIn {
    x.(stack := [])
  }

  function AllBare(ins: seq<TxIn>): (r: seq<TxIn>)
    ensures |r| == |ins|
    ensures forall i :: 0 <= i < |ins| ==> r[i] == Bare(ins[i])
  {
    seq(|ins|, i requires 0 <= i < |ins| => Bare(ins[i]))
  }

  lemma ReadInputInverse(seen: set<Bytes>, x: TxIn, rest: Bytes)
    requires InputFits(x) && x.outpoint !in seen
    ensures ReadInput(seen, x.outpoint + (Vector(x.script) + (x.sequence + rest))) == Good(Bare(x), rest)
  {
    TakePrefix(x.outpoint, Vector(x.script) + (x.sequence + rest), Truncated);
    ReadBlobInverse(x.script, x.sequence + rest);
    TakePrefix(x.sequence, rest, Truncated);
  }

  lemma DistinctMoved(got: seq<TxIn>, x: TxIn, tail: seq<TxIn>)
    requires DistinctOutpoints(got + ([x] + tail))
    ensures DistinctOutpoints(got + [Bare(x)] + tail)
  {
    var all, all' := got + ([x] + tail), got + [Bare(x)] + tail;
    assert forall i :: 0 <= i < |all| ==> all'[i].outpoint == all[i].outpoint;
  }

  lemma {:induction false} ReadInputsInverse(got: seq<TxIn>, ins: seq<TxIn>, rest: Bytes)
    requires InputsFit(ins)
    requires DistinctOutpoints(got + ins)
    ensures ReadInputs(|ins|, got, PutInputs(ins, rest)) == Good(got + AllBare(ins), rest)
    decreases |ins|
  {
    hide Vector, ReadInput;
    if ins == [] {
      assert got + AllBare(ins) == got;
    } else {
      var x := ins[0];
      assert ins == [x] + ins[1..];
      forall y | y in got ensures y.outpoint != x.outpoint {
        var i :| 0 <= i < |got| && got[i] == y;
        assert (got + ins)[i] == y && (got + ins)[|got|] == x;
      }
      ReadInputInverse(Outpoints(got), x, PutInputs(ins[1..], rest));
      var got' := got + [Bare(x)];
      DistinctMoved(got, x, ins[1..]);
      ReadInputsInverse(got', ins[1..], rest);
      assert got' + AllBare(ins[1..]) == got + AllBare(ins);
    }
  }

  lemma ReadInputSound(seen: set<Bytes>, s: Bytes)
    requires ReadInput(seen, s).Good?
    ensures var r := ReadInput(seen, s);
      && InputFits(r.value) && r.value.stack == [] && r.value.outpoint !in seen
      && s == r.value.outpoint + (Vector(r.value.script) + (r.value.sequence + r.rest))
  {
    var (outpoint, s1) := Take(36, s, Truncated).Extract();
    ReadBlobSound(s1);
    var (script, s2) := ReadBlob(s1).Extract();
    assert s2 == s2[..4] + s2[4..];
    assert s == outpoint + s1;
  }

  /** Whatever the loop adds to `got` is exactly what the bytes spelled out. */
  lemma {:induction false} ReadInputsSound(n: nat, got: seq<TxIn>, s: Bytes) returns (tail: seq<TxIn>)
    requires ReadInputs(n, got, s).Good?
    requires DistinctOutpoints(got)
    ensures var r := ReadInputs(n, got, s);
      && |tail| == n && r.value == got + tail
      && DistinctOutpoints(r.value)
      && InputsFit(tail) && !HasWitness(tail)
      && s == PutInputs(tail, r.rest)
    decreases n
  {
    hide Vector, ReadInput;
    if n == 0 {
      tail := [];
      assert got + tail == got;
    } else {
      ReadInputSound(Outpoints(got), s);
      var (x, s1) := ReadInput(Outpoints(got), s).Extract();
      assert forall i :: 0 <= i < |got| ==> got[i].outpoint in Outpoints(got);
      var tail' := ReadInputsSound(n - 1, got + [x], s1);
      tail := [x] + tail';
      assert got + [x] + tail' == got + tail;
      assert tail[1..] == tail';
    }
  }

  // --- outputs

  lemma TotalAmountAppend(outs: seq<TxOut>, o: TxOut)
    ensures TotalAmount(outs + [o]) == TotalAmount(outs) + o.amount
  {
    assert (outs + [o])[..|outs|] == outs;
  }

  lemma {:induction false} TotalAmountPrefix(outs: seq<TxOut>, k: nat)
    requires k <= |outs|
    ensures TotalAmount(outs[..k]) <= TotalAmount(outs)
    decreases |outs|
  {
    if k == |outs| {
      assert outs[..k] == outs;
    } else {
      TotalAmountPrefix(outs[..|outs| - 1], k);
      assert outs[..|outs| - 1][..k] == outs[..k];
    }
  }

  lemma ReadOutputInverse(total: nat, o: TxOut, rest: Bytes)
    requires OutputFits(o) && total + o.amount <= MAX_MONEY
    ensures ReadOutput(total, ToLE(o.amount, 8) + (Vector(o.script) + rest)) == Good(o, rest)
  {
    hide Vector, ReadBlob;
    Pow256Values();
    ReadIntegerInverse(8, o.amount, Vector(o.script) + rest);
    ReadBlobInverse(o.script, rest);
  }

  lemma {:induction false} ReadOutputsInverse(got: seq<TxOut>, outs: seq<TxOut>, rest: Bytes)
    requires OutputsFit(outs)
    requires TotalAmount(got + outs) <= MAX_MONEY
    ensures ReadOutputs(|outs|, got, PutOutputs(outs, rest)) == Good(got + outs, rest)
    decreases |outs|
  {
    hide Vector, ReadOutput, ToLE;
    if outs == [] {
      assert got + outs == got;
    } else {
      var o := outs[0];
      TotalAmountPrefix(got + outs, |got| + 1);
      assert (got + outs)[..|got| + 1] == got + [o];
      TotalAmountAppend(got, o);
      ReadOutputInverse(TotalAmount(got), o, PutOutputs(outs[1..], rest));
      assert got + [o] + outs[1..] == got + outs;
      ReadOutputsInverse(got + [o], outs[1..], rest);
    }
  }

  lemma ReadOutputSound(total: nat, s: Bytes)
    requires ReadOutput(total, s).Good?
    ensures var r := ReadOutput(total, s);
      && OutputFits(r.value) && total + r.value.amount <= MAX_MONEY
      && s == ToLE(r.value.amount, 8) + (Vector(r.value.script) + r.rest)
  {
    ReadIntegerSound(8, s);
    var (amount, s1) := ReadInteger(8, s).Extract();
    ReadBlobSound(s1);
  }

  lemma {:induction false} ReadOutputsSound(n: nat, got: seq<TxOut>, s: Bytes) returns (tail: seq<TxOut>)
    requires ReadOutputs(n, got, s).Good?
    requires TotalAmount(got) <= MAX_MONEY
    ensures var r := ReadOutputs(n, got, s);
      && |tail| == n && r.value == got + tail
      && TotalAmount(r.value) <= MAX_MONEY
      && OutputsFit(tail)
      && s == PutOutputs(tail, r.rest)
    decreases n
  {
    hide Vector, ReadOutput, ToLE, TotalAmount;
    if n == 0 {
      tail := [];
      assert got + tail == got;
    } else {
      ReadOutputSound(TotalAmount(got), s);
      var (o, s1) := ReadOutput(TotalAmount(got), s).Extract();
      TotalAmountAppend(got, o);
      var tail' := ReadOutputsSound(n - 1, got + [o], s1);
      tail := [o] + tail';
      assert got + [o] + tail' == got + tail;
      assert tail[1..] == tail';
    }
  }

  // --- witnesses

  lemma {:induction false} ReadStackInverse(got: seq<Bytes>, items: seq<Bytes>, rest: Bytes)
    requires forall w :: w in items ==> |w| <= MAX_BYTES
    ensures ReadStack(|items|, got, PutStack(items, rest)) == Good(got + items, rest)
    decreases |items|
  {
    if items == [] {
      assert got + items == got;
    } else {
      ReadBlobInverse(items[0], PutStack(items[1..], rest));
      ReadStackInverse(got + [items[0]], items[1..], rest);
      assert got + [items[0]] + items[1..] == got + items;
    }
  }

  lemma {:induction false} ReadStackSound(n: nat, got: seq<Bytes>, s: Bytes) returns (tail: seq<Bytes>)
    requires ReadStack(n, got, s).Good?
    ensures var r := ReadStack(n, got, s);
      && |tail| == n && r.value == got + tail
      && (forall w :: w in tail ==> |w| <= MAX_BYTES)
      && s == PutStack(tail, r.rest)
    decreases n
  {
    hide Vector, ReadBlob;
    if n == 0 {
      tail := [];
      assert got + tail == got;
    } else {
      ReadBlobSound(s);
      var (w, s1) := ReadBlob(s).Extract();
      var tail' := ReadStackSound(n - 1, got + [w], s1);
      tail := [w] + tail';
      assert got + [w] + tail' == got + tail;
      assert tail[1..] == tail';
    }
  }

  lemma {:induction false} ReadWitnessesInverse(got: seq<TxIn>, ins: seq<TxIn>, rest: Bytes)
    requires InputsFit(ins)
    ensures ReadWitnesses(AllBare(ins), got, PutWitnesses(ins, rest)) == Good(got + ins, rest)
    decreases |ins|
  {
    hide Compact, ReadCount, ReadStack, PutStack;
    if ins == [] {
      assert got + ins == got;
    } else {
      var x := ins[0];
      var tail := PutWitnesses(ins[1..], rest);
      ReadCountInverse(MAX_ITEMS, |x.stack|, PutStack(x.stack, tail));
      ReadStackInverse([], x.stack, tail);
      assert [] + x.stack == x.stack;
      assert AllBare(ins)[1..] == AllBare(ins[1..]);
      assert AllBare(ins)[0].(stack := x.stack) == x;
      ReadWitnessesInverse(got + [x], ins[1..], rest);
      assert got + [x] + ins[1..] == got + ins;
    }
  }

  lemma BareAppend(x: TxIn, ins: seq<TxIn>)
    ensures AllBare([x] + ins) == [Bare(x)] + AllBare(ins)
  {
  }

  lemma {:induction false} ReadWitnessesSound(todo: seq<TxIn>, got: seq<TxIn>, s: Bytes) returns (tail: seq<TxIn>)
    requires ReadWitnesses(todo, got, s).Good?
    requires InputsFit(todo) && !HasWitness(todo)
    ensures var r := ReadWitnesses(todo, got, s);
      && |tail| == |todo| && r.value == got + tail
      && InputsFit(tail) && AllBare(tail) == todo
      && s == PutWitnesses(tail, r.rest)
    decreases |todo|
  {
    hide Compact, ReadCount, ReadStack, PutStack, AllBare;
    if todo == [] {
      tail := [];
      assert got + tail == got;
    } else {
      ReadCountSound(MAX_ITEMS, s);
      var (n, s1) := ReadCount(MAX_ITEMS, s).Extract();
      var w := ReadStackSound(n, [], s1);
      assert [] + w == w;
      var s2 := ReadStack(n, [], s1).rest;
      var x := todo[0].(stack := w);
      assert InputFits(x) by { assert InputFits(todo[0]); }
      assert !HasWitness(todo[1..]);
      var tail' := ReadWitnessesSound(todo[1..], got + [x], s2);
      tail := [x] + tail';
      assert got + [x] + tail' == got + tail;
      assert tail[1..] == tail';
      assert todo[0].stack == [];
      BareAppend(x, tail');
    }
  }

  // --- whole transactions

  lemma CompactLead(v: nat)
    requires v <= MAX_U64
    ensures Compact(v)[0] == 0 <==> v == 0
  {
  }

  lemma BareWithoutWitness(ins: seq<TxIn>)
    requires !HasWitness(ins)
    ensures AllBare(ins) == ins
  {
    forall i | 0 <= i < |ins| ensures AllBare(ins)[i] == ins[i] {
      assert ins[i].stack == [];
    }
  }

  lemma BodyInverse(tx: Tx, tail: Bytes)
    requires Shaped(tx) && DistinctOutpoints(tx.inputs) && TotalAmount(tx.outputs) <= MAX_MONEY
    ensures
      var outs := Compact(|tx.outputs|) + PutOutputs(tx.outputs, tail);
      var s := Compact(|tx.inputs|) + PutInputs(tx.inputs, outs);
      && ReadCount(MAX_ITEMS, s) == Good(|tx.inputs|, PutInputs(tx.inputs, outs))
      && ReadInputs(|tx.inputs|, [], PutInputs(tx.inputs, outs)) == Good(AllBare(tx.inputs), outs)
      && ReadCount(MAX_ITEMS, outs) == Good(|tx.outputs|, PutOutputs(tx.outputs, tail))
      && ReadOutputs(|tx.outputs|, [], PutOutputs(tx.outputs, tail)) == Good(tx.outputs, tail)
  {
    hide Compact, ReadCount, ReadInputs, ReadOutputs, PutInputs, PutOutputs, TotalAmount;
    var outs := Compact(|tx.outputs|) + PutOutputs(tx.outputs, tail);
    ReadCountInverse(MAX_ITEMS, |tx.inputs|, PutInputs(tx.inputs, outs));
    assert [] + tx.inputs == tx.inputs && [] + AllBare(tx.inputs) == AllBare(tx.inputs);
    ReadInputsInverse([], tx.inputs, outs);
    ReadCountInverse(MAX_ITEMS, |tx.outputs|, PutOutputs(tx.outputs, tail));
    assert [] + tx.outputs == tx.outputs;
    ReadOutputsInverse([], tx.outputs, tail);
  }

  lemma ReadStripped(tx: Tx)
    requires Admissible(tx) && !HasWitness(tx.inputs)
    ensures ReadTransaction(Stripped(tx)) == Good(tx, [])
  {
    hide ReadCount, ReadInputs, ReadOutputs, PutInputs, PutOutputs, TotalAmount, HasWitness, Compact;
    BodyInverse(tx, tx.locktime);
    BareWithoutWitness(tx.inputs);
    var body := Compact(|tx.inputs|) + PutInputs(tx.inputs,
      Compact(|tx.outputs|) + PutOutputs(tx.outputs, tx.locktime));
    TakePrefix(tx.version, body, Truncated);
    CompactLead(|tx.inputs|);
    assert body[0] != 0;
    assert tx.locktime + [] == tx.locktime;
    TakePrefix(tx.locktime, [], Truncated);
  }

  lemma ReadExtended(tx: Tx)
    requires Admissible(tx) && HasWitness(tx.inputs)
    ensures ReadTransaction(Extended(tx)) == Good(tx, [])
  {
    hide ReadCount, ReadInputs, ReadOutputs, ReadWitnesses, PutInputs, PutOutputs, PutWitnesses,
         TotalAmount, HasWitness, Compact;
    var tail := PutWitnesses(tx.inputs, tx.locktime);
    BodyInverse(tx, tail);
    var body := Compact(|tx.inputs|) + PutInputs(tx.inputs,
      Compact(|tx.outputs|) + PutOutputs(tx.outputs, tail));
    TakePrefix(tx.version, [0, 1] + body, Truncated);
    TakePrefix([0, 1], body, Truncated);
    assert [] + tx.inputs == tx.inputs;
    ReadWitnessesInverse([], tx.inputs, tx.locktime);
    assert tx.locktime + [] == tx.locktime;
    TakePrefix(tx.locktime, [], Truncated);
  }

  /** Every admissible transaction parses back to itself. */
  lemma ParseSerialize(tx: Tx)
    requires Admissible(tx)
    ensures Parse(Serialize(tx)) == Ok(tx)
  {
    if HasWitness(tx.inputs) {
      ReadExtended(tx);
    } else {
      ReadStripped(tx);
    }
  }

  /** Every accepted byte string is the serialization of what it parsed to. */
  lemma SerializeParse(raw: Bytes)
    requires Parse(raw).Ok?
    ensures var tx := Parse(raw).value;
      Admissible(tx) && Serialize(tx) == raw
  {
    hide Compact, ReadCount, ReadInputs, ReadOutputs, ReadWitnesses, PutInputs, PutOutputs, PutWitnesses,
         TotalAmount, HasWitness, DistinctOutpoints;
    var (version, s1) := Take(4, raw, Truncated).Extract();
    assert raw == version + s1;
    var (segwit, s2) := ReadMarker(s1).Extract();
    assert segwit ==> s1 == [0, 1] + s2;
    ReadCountSound(MAX_ITEMS, s2);
    var (count, s3) := ReadCount(MAX_ITEMS, s2).Extract();
    NoDuplicatesYet();
    var ins := ReadInputsSound(count, [], s3);
    assert [] + ins == ins;
    var s4 := ReadInputs(count, [], s3).rest;
    ReadCountSound(MAX_ITEMS, s4);
    var (countOutputs, s5) := ReadCount(MAX_ITEMS, s4).Extract();
    var outs := ReadOutputsSound(countOutputs, [], s5);
    assert [] + outs == outs;
    var s6 := ReadOutputs(countOutputs, [], s5).rest;
    var tx := Parse(raw).value;
    if segwit {
      var all := ReadWitnessesSound(ins, [], s6);
      assert [] + all == all;
      PutInputsBare(all, s4);
      DistinctBare(all);
      assert tx.inputs == all;
      assert Shaped(tx);
      var s7 := ReadWitnesses(ins, [], s6).rest;
      assert s7 == s7[..4] + s7[4..] == tx.locktime;
      assert s2 == Compact(|all|) + PutInputs(all, Compact(|outs|) + PutOutputs(outs, s6));
      assert raw == Extended(tx);
    } else {
      assert tx.inputs == ins;
      assert Shaped(tx);
      assert s6 == s6[..4] + s6[4..] == tx.locktime;
      assert s2 == Compact(|ins|) + PutInputs(ins, Compact(|outs|) + PutOutputs(outs, s6));
      assert raw == Stripped(tx);
    }
  }

  lemma NoDuplicatesYet()
    ensures DistinctOutpoints([]) && TotalAmount([]) == 0
  {
  }

  lemma DistinctBare(ins: seq<TxIn>)
    ensures DistinctOutpoints(AllBare(ins)) == DistinctOutpoints(ins)
  {
    assert forall i :: 0 <= i < |ins| ==> AllBare(ins)[i].outpoint == ins[i].outpoint;
  }

  /** Witnesses play no part in the serialization of the inputs. */
  lemma {:induction false} PutInputsBare(ins: seq<TxIn>, rest: Bytes)
    requires InputsFit(ins)
    ensures InputsFit(AllBare(ins)) && PutInputs(AllBare(ins), rest) == PutInputs(ins, rest)
    decreases |ins|
  {
    forall i | 0 <= i < |ins| ensures InputFits(AllBare(ins)[i]) {
      assert InputFits(ins[i]);
    }
    if ins != [] {
      assert AllBare(ins)[1..] == AllBare(ins[1..]);
      PutInputsBare(ins[1..], rest);
    }
  }

  /** Accepted strings are in one-to-one correspondence with admissible transactions. */
  lemma ParseInjective(a: Bytes, b: Bytes)
    requires Parse(a).Ok? && Parse(b).Ok?
    ensures Parse(a) == Parse(b) ==> a == b
  {
    SerializeParse(a);
    SerializeParse(b);
  }

  /** What every accepted transaction promises: bounded size and lists, no input twice, and amounts that exist. */
  lemma AcceptedMeans(raw: Bytes)
    requires Parse(raw).Ok?
    ensures var tx := Parse(raw).value;
      && 0 < |raw| <= 4_000_000 && |tx.version| == 4 && |tx.locktime| == 4
      && 1 <= |tx.inputs| <= 100_000 && 1 <= |tx.outputs| <= 100_000
      && (forall i, j :: 0 <= i < j < |tx.inputs| ==> tx.inputs[i].outpoint != tx.inputs[j].outpoint)
      && (forall i :: 0 <= i < |tx.outputs| ==> tx.outputs[i].amount <= 2_100_000_000_000_000)
  {
    hide ReadTransaction, Serialize;
    SerializeParse(raw);
  }
}
