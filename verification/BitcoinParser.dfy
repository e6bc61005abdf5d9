/**
 The parser as scripts/bitcoin_claim_oracle.py runs it: a cursor over the raw
 bytes and loops that grow lists, refining BitcoinTransaction.Parse.
 */
module BitcoinParser {
  import opened Wire
  import opened BitcoinTransaction

  method ReadIntegerFrom(c: Cursor, size: nat) returns (r: Result<nat, Refusal>)
    requires c.Valid()
    modifies c
    ensures c.Valid() && old(c.position) <= c.position
    ensures Follows(r, c.Rest(), ReadInteger(size, old(c.Rest())))
  {
    var b :- c.TakeBytes(size, Truncated);
    r := Ok(FromLE(b));
  }

  method ReadCountFrom(c: Cursor, limit: nat) returns (r: Result<nat, Refusal>)
    requires c.Valid()
    modifies c
    ensures c.Valid() && old(c.position) <= c.position
    ensures Follows(r, c.Rest(), ReadCount(limit, old(c.Rest())))
  {
    var prefix :- ReadIntegerFrom(c, 1);
    var value := prefix;
    if prefix >= 253 {
      var size := if prefix == 253 then 2 else if prefix == 254 then 4 else 8;
      value :- ReadIntegerFrom(c, size);
      var least := if size == 2 then 253 else if size == 4 then 0x1_0000 else 0x1_0000_0000;
      if value < least {
        return Err(NonCanonicalCompactSize);
      }
    }
    if value > limit {
      return Err(VectorBoundExceeded);
    }
    r := Ok(value);
  }

  method ReadBlobFrom(c: Cursor) returns (r: Result<Bytes, Refusal>)
    requires c.Valid()
    modifies c
    ensures c.Valid() && old(c.position) <= c.position
    ensures Follows(r, c.Rest(), ReadBlob(old(c.Rest())))
  {
    hide ReadCount;
    var n :- ReadCountFrom(c, MAX_BYTES);
    r := c.TakeBytes(n, Truncated);
  }

  method ReadInputFrom(c: Cursor, seen: set<Bytes>) returns (r: Result<TxIn, Refusal>)
    requires c.Valid()
    modifies c
    ensures c.Valid() && old(c.position) <= c.position
    ensures Follows(r, c.Rest(), ReadInput(seen, old(c.Rest())))
  {
    hide ReadBlob;
    var outpoint :- c.TakeBytes(36, Truncated);
    if outpoint in seen {
      return Err(DuplicateInput);
    }
    var script :- ReadBlobFrom(c);
    var sequence :- c.TakeBytes(4, Truncated);
    r := Ok(TxIn(outpoint, script, sequence, []));
  }

  /** Reads the inputs; also returns the c.bytes slices they were read from, joined. */
  method ReadInputsFrom(c: Cursor, count: nat) returns (r: Result<seq<TxIn>, Refusal>, encoded: Bytes)
    requires c.Valid()
    modifies c
    ensures c.Valid() && old(c.position) <= c.position
    ensures Follows(r, c.Rest(), ReadInputs(count, [], old(c.Rest())))
    ensures r.Ok? ==> |r.value| == count && InputsFit(r.value) && !HasWitness(r.value)
    ensures r.Ok? ==> encoded == PutInputs(r.value, [])
  {
    hide ReadInput, Vector;
    var inputs, seen := [], {};
    encoded := [];
    var i := 0;
    while i < count
      invariant 0 <= i <= count && c.Valid() && old(c.position) <= c.position
      invariant seen == Outpoints(inputs)
      invariant |inputs| == i && InputsFit(inputs) && !HasWitness(inputs)
      invariant encoded == PutInputs(inputs, [])
      invariant ReadInputs(count, [], old(c.Rest())) == ReadInputs(count - i, inputs, c.Rest())
    {
      var start := c.position;
      ghost var before := c.Rest();
      var got := ReadInputFrom(c, seen);
      if got.Err? {
        return Err(got.error), encoded;
      }
      var x := got.value;
      ReadInputSound(seen, before);
      SliceRead(c.bytes, start, c.position, x.outpoint + (Vector(x.script) + x.sequence));
      PutInputsAppend(inputs, x);
      encoded := encoded + c.bytes[start..c.position];
      inputs := inputs + [x];
      seen := seen + {x.outpoint};
      i := i + 1;
    }
    r := Ok(inputs);
  }

  method ReadOutputFrom(c: Cursor, total: nat) returns (r: Result<TxOut, Refusal>)
    requires c.Valid()
    modifies c
    ensures c.Valid() && old(c.position) <= c.position
    ensures Follows(r, c.Rest(), ReadOutput(total, old(c.Rest())))
  {
    hide ReadBlob;
    var amount :- ReadIntegerFrom(c, 8);
    if amount > MAX_MONEY || total + amount > MAX_MONEY {
      return Err(AmountOutOfRange);
    }
    var script :- ReadBlobFrom(c);
    r := Ok(TxOut(amount, script));
  }

  method ReadOutputsFrom(c: Cursor, count: nat) returns (r: Result<seq<TxOut>, Refusal>)
    requires c.Valid()
    modifies c
    ensures c.Valid() && old(c.position) <= c.position
    ensures Follows(r, c.Rest(), ReadOutputs(count, [], old(c.Rest())))
  {
    hide ReadOutput;
    var outputs, total := [], 0;
    var i := 0;
    while i < count
      invariant 0 <= i <= count && c.Valid() && old(c.position) <= c.position
      invariant total == TotalAmount(outputs)
      invariant ReadOutputs(count, [], old(c.Rest())) == ReadOutputs(count - i, outputs, c.Rest())
    {
      var o :- ReadOutputFrom(c, total);
      TotalAmountAppend(outputs, o);
      total := total + o.amount;
      outputs := outputs + [o];
      i := i + 1;
    }
    r := Ok(outputs);
  }

  method ReadStackFrom(c: Cursor, count: nat) returns (r: Result<seq<Bytes>, Refusal>)
    requires c.Valid()
    modifies c
    ensures c.Valid() && old(c.position) <= c.position
    ensures Follows(r, c.Rest(), ReadStack(count, [], old(c.Rest())))
  {
    hide ReadBlob;
    var items := [];
    var i := 0;
    while i < count
      invariant 0 <= i <= count && c.Valid() && old(c.position) <= c.position
      invariant ReadStack(count, [], old(c.Rest())) == ReadStack(count - i, items, c.Rest())
    {
      var w :- ReadBlobFrom(c);
      items := items + [w];
      i := i + 1;
    }
    r := Ok(items);
  }

  method ReadWitnessesFrom(c: Cursor, bare: seq<TxIn>) returns (r: Result<seq<TxIn>, Refusal>)
    requires c.Valid()
    modifies c
    ensures c.Valid() && old(c.position) <= c.position
    ensures Follows(r, c.Rest(), ReadWitnesses(bare, [], old(c.Rest())))
  {
    hide ReadCount, ReadStack;
    var inputs := [];
    var i := 0;
    while i < |bare|
      invariant 0 <= i <= |bare| && c.Valid() && old(c.position) <= c.position
      invariant ReadWitnesses(bare, [], old(c.Rest())) == ReadWitnesses(bare[i..], inputs, c.Rest())
    {
      var n :- ReadCountFrom(c, MAX_ITEMS);
      var w :- ReadStackFrom(c, n);
      inputs := inputs + [bare[i].(stack := w)];
      i := i + 1;
    }
    r := Ok(inputs);
  }

  method ReadMarkerFrom(c: Cursor) returns (r: Result<bool, Refusal>)
    requires c.Valid()
    modifies c
    ensures c.Valid() && old(c.position) <= c.position
    ensures Follows(r, c.Rest(), ReadMarker(old(c.Rest())))
  {
    if c.position == |c.bytes| || c.bytes[c.position] != 0 {
      return Ok(false);
    }
    var flags :- c.TakeBytes(2, Truncated);
    if flags != [0, 1] {
      return Err(UnsupportedWitnessFlags);
    }
    r := Ok(true);
  }

  /** Adds the witnesses to inputs read without them; the rest of each input stays. */
  method ReadAllWitnessesFrom(c: Cursor, segwit: bool, bare: seq<TxIn>) returns (r: Result<seq<TxIn>, Refusal>)
    requires c.Valid()
    requires InputsFit(bare) && !HasWitness(bare)
    modifies c
    ensures c.Valid() && old(c.position) <= c.position
    ensures Follows(r, c.Rest(), ReadAllWitnesses(segwit, bare, old(c.Rest())))
    ensures r.Ok? ==> AllBare(r.value) == bare
  {
    hide ReadWitnesses;
    BareWithoutWitness(bare);
    if !segwit {
      return Ok(bare);
    }
    ghost var before := c.Rest();
    var inputs :- ReadWitnessesFrom(c, bare);
    ghost var all := ReadWitnessesSound(bare, [], before);
    assert [] + all == all == inputs;
    if !HasWitness(inputs) {
      return Err(SuperfluousWitness);
    }
    r := Ok(inputs);
  }

  /** Reads a whole transaction; `bare` are its inputs before witnesses, `encoded` their c.bytes bytes. */
  method ReadTransactionFrom(c: Cursor) returns (r: Result<Tx, Refusal>, bare: seq<TxIn>, encoded: Bytes)
    requires c.Valid()
    modifies c
    ensures c.Valid()
    ensures Follows(r, c.Rest(), ReadTransaction(old(c.Rest())))
    ensures r.Ok? ==> bare == AllBare(r.value.inputs) && InputsFit(bare) && encoded == PutInputs(bare, [])
  {
    hide ReadCount, ReadInputs, ReadOutputs, ReadAllWitnesses, ReadMarker, PutInputs, AllBare, HasWitness;
    bare, encoded := [], [];
    var version :- c.TakeBytes(4, Truncated);
    var segwit :- ReadMarkerFrom(c);
    var count :- ReadCountFrom(c, MAX_ITEMS);
    if count == 0 {
      return Err(NoInputs), bare, encoded;
    }
    var read;
    read, encoded := ReadInputsFrom(c, count);
    if read.Err? {
      return Err(read.error), bare, encoded;
    }
    bare := read.value;
    var countOutputs :- ReadCountFrom(c, MAX_ITEMS);
    if countOutputs == 0 {
      return Err(NoOutputs), bare, encoded;
    }
    var outputs :- ReadOutputsFrom(c, countOutputs);
    var inputs :- ReadAllWitnessesFrom(c, segwit, bare);
    var locktime :- c.TakeBytes(4, Truncated);
    r := Ok(Tx(version, inputs, outputs, locktime));
  }

  lemma SliceRead(raw: Bytes, start: nat, end: nat, x: Bytes)
    requires start <= end <= |raw|
    requires raw[start..] == x + raw[end..]
    ensures raw[start..end] == x
  {
    assert raw[start..end] == raw[start..][..end - start];
  }

  lemma RegroupFive(a: Bytes, b: Bytes, c: Bytes, d: Bytes, e: Bytes)
    ensures a + (b + (c + (d + e))) == a + (b + (c + d)) + e
  {
  }

  /** What stands behind the inputs is simply appended. */
  lemma {:induction false} PutInputsRest(ins: seq<TxIn>, rest: Bytes)
    requires InputsFit(ins)
    ensures PutInputs(ins, rest) == PutInputs(ins, []) + rest
    decreases |ins|
  {
    hide Vector;
    if ins != [] {
      PutInputsRest(ins[1..], rest);
      RegroupFive(ins[0].outpoint, Vector(ins[0].script), ins[0].sequence, PutInputs(ins[1..], []), rest);
    }
  }

  lemma {:induction false} PutInputsAppend(ins: seq<TxIn>, x: TxIn)
    requires InputsFit(ins) && InputFits(x)
    ensures InputsFit(ins + [x])
    ensures PutInputs(ins + [x], []) == PutInputs(ins, []) + (x.outpoint + (Vector(x.script) + x.sequence))
    decreases |ins|
  {
    hide Vector;
    if ins == [] {
      assert [x][1..] == [];
    } else {
      PutInputsAppend(ins[1..], x);
      assert (ins + [x])[1..] == ins[1..] + [x];
      RegroupFive(ins[0].outpoint, Vector(ins[0].script), ins[0].sequence, PutInputs(ins[1..], []),
                  x.outpoint + (Vector(x.script) + x.sequence));
    }
  }

  lemma {:induction false} PutOutputsRest(outs: seq<TxOut>, rest: Bytes)
    requires OutputsFit(outs)
    ensures PutOutputs(outs, rest) == PutOutputs(outs, []) + rest
    decreases |outs|
  {
    hide Vector, ToLE;
    if outs != [] {
      PutOutputsRest(outs[1..], rest);
    }
  }

  /** BIP 141: three times the stripped size plus the full size. */
  function Weight(tx: Tx): nat
    requires Shaped(tx)
  {
    3 * |Stripped(tx)| + |Serialize(tx)|
  }

  datatype Report = Report(tx: Tx, txid: Bytes, weight: nat)

  /** Joins the serialized outputs, as the verifier does for the stripped form. */
  method JoinOutputs(outs: seq<TxOut>) returns (joined: Bytes)
    requires OutputsFit(outs)
    ensures joined == PutOutputs(outs, [])
  {
    hide Vector, ToLE;
    joined := [];
    var i := |outs|;
    while i > 0
      invariant 0 <= i <= |outs|
      invariant joined == PutOutputs(outs[i..], [])
    {
      i := i - 1;
      joined := ToLE(outs[i].amount, 8) + (Vector(outs[i].script) + joined);
      assert outs[i..][1..] == outs[i + 1..];
    }
  }

  /** The stripped form, put together from the pieces the reader kept. */
  lemma StrippedPieces(tx: Tx, bare: seq<TxIn>)
    requires Shaped(tx)
    requires bare == AllBare(tx.inputs)
    ensures InputsFit(bare)
    ensures Stripped(tx) == tx.version + (Compact(|tx.inputs|) + (PutInputs(bare, [])
      + (Compact(|tx.outputs|) + (PutOutputs(tx.outputs, []) + tx.locktime))))
  {
    hide PutInputs, PutOutputs, Compact;
    PutInputsBare(tx.inputs, []);
    PutOutputsRest(tx.outputs, tx.locktime);
    PutInputsRest(tx.inputs, Compact(|tx.outputs|) + PutOutputs(tx.outputs, tx.locktime));
  }

  /** The report is refused exactly when Parse refuses, and otherwise carries the txid and the weight. */
  method ParseTransaction(sha: Bytes -> Bytes, raw: Bytes) returns (r: Result<Report, Refusal>)
    ensures Parse(raw).Ok? ==> Admissible(Parse(raw).value)
    ensures match Parse(raw)
      case Err(e) => r == Err(e)
      case Ok(tx) => r == Ok(Report(tx, sha(sha(Stripped(tx))), Weight(tx)))
  {
    hide ReadTransaction, PutInputs, PutOutputs, Compact, AllBare, Stripped, Serialize, DistinctOutpoints;
    if Parse(raw).Ok? {
      SerializeParse(raw);
    }
    if !(0 < |raw| <= MAX_BYTES) {
      return Err(SizeOutOfBounds);
    }
    var c := new Cursor(raw);
    var read, bare, encoded := ReadTransactionFrom(c);
    if read.Err? {
      return Err(read.error);
    }
    if c.position != |raw| {
      return Err(TrailingBytes);
    }
    var tx := read.value;
    assert Parse(raw) == Ok(tx);
    var joined := JoinOutputs(tx.outputs);
    StrippedPieces(tx, bare);
    var stripped := tx.version + (Compact(|tx.inputs|) + (encoded
      + (Compact(|tx.outputs|) + (joined + tx.locktime))));
    r := Ok(Report(tx, sha(sha(stripped)), 3 * |stripped| + |raw|));
  }
}
