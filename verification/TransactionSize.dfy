/**
 Sizes of Bitcoin transactions, added up field by field: the virtual size of
 BIP 141 that fee rates are measured against.
 */
module TransactionSize {
  import opened Wire
  import opened BitcoinTransaction
  import BitcoinParser

  function CompactLength(n: nat): (r: nat)
    ensures r > 0
  {
    if n < 253 then 1 else if n <= 0xFFFF then 3 else if n <= 0xFFFF_FFFF then 5 else 9
  }

  function VectorSize(data: Bytes): nat {
    CompactLength(|data|) + |data|
  }

  function InputsSize(ins: seq<TxIn>): nat {
    if ins == [] then 0
    else |ins[0].outpoint| + VectorSize(ins[0].script) + |ins[0].sequence| + InputsSize(ins[1..])
  }

  function OutputsSize(outs: seq<TxOut>): nat {
    if outs == [] then 0 else 8 + VectorSize(outs[0].script) + OutputsSize(outs[1..])
  }

  function StackSize(items: seq<Bytes>): nat {
    if items == [] then 0 else VectorSize(items[0]) + StackSize(items[1..])
  }

  function WitnessesSize(ins: seq<TxIn>): nat {
    if ins == [] then 0 else CompactLength(|ins[0].stack|) + StackSize(ins[0].stack) + WitnessesSize(ins[1..])
  }

  function BaseSize(tx: Tx): nat {
    |tx.version| + CompactLength(|tx.inputs|) + InputsSize(tx.inputs)
    + CompactLength(|tx.outputs|) + OutputsSize(tx.outputs) + |tx.locktime|
  }

  /** Marker, flag and witnesses count only when some input carries a witness. */
  function TotalSize(tx: Tx): nat {
    BaseSize(tx) + if HasWitness(tx.inputs) then 2 + WitnessesSize(tx.inputs) else 0
  }

  /** A quarter of the weight, rounded up. */
  function VirtualSize(tx: Tx): (v: nat)
    ensures v > 0
  {
    (3 * BaseSize(tx) + TotalSize(tx) + 3) / 4
  }

  lemma CompactSized(v: nat)
    requires v <= MAX_U64
    ensures |Compact(v)| == CompactLength(v)
  {
  }

  lemma {:induction false} InputsSized(ins: seq<TxIn>, rest: Bytes)
    requires InputsFit(ins)
    ensures |PutInputs(ins, rest)| == InputsSize(ins) + |rest|
  {
    hide Compact;
    if ins != [] {
      CompactSized(|ins[0].script|);
      InputsSized(ins[1..], rest);
    }
  }

  lemma {:induction false} OutputsSized(outs: seq<TxOut>, rest: Bytes)
    requires OutputsFit(outs)
    ensures |PutOutputs(outs, rest)| == OutputsSize(outs) + |rest|
  {
    hide Compact, ToLE;
    if outs != [] {
      CompactSized(|outs[0].script|);
      OutputsSized(outs[1..], rest);
    }
  }

  lemma {:induction false} StackSized(items: seq<Bytes>, rest: Bytes)
    requires forall w :: w in items ==> |w| <= MAX_BYTES
    ensures |PutStack(items, rest)| == StackSize(items) + |rest|
  {
    hide Compact;
    if items != [] {
      CompactSized(|items[0]|);
      StackSized(items[1..], rest);
    }
  }

  lemma {:induction false} WitnessesSized(ins: seq<TxIn>, rest: Bytes)
    requires InputsFit(ins)
    ensures |PutWitnesses(ins, rest)| == WitnessesSize(ins) + |rest|
  {
    hide Compact, PutStack;
    if ins != [] {
      CompactSized(|ins[0].stack|);
      WitnessesSized(ins[1..], rest);
      StackSized(ins[0].stack, PutWitnesses(ins[1..], rest));
    }
  }

  /** The sizes are those of the serialized bytes, so the virtual size is the BIP 141 one. */
  lemma SizesExact(tx: Tx)
    requires Shaped(tx)
    ensures BaseSize(tx) == |Stripped(tx)| && TotalSize(tx) == |Serialize(tx)|
    ensures VirtualSize(tx) == (BitcoinParser.Weight(tx) + 3) / 4
  {
    hide Compact, PutInputs, PutOutputs, PutWitnesses, InputsSize, OutputsSize, WitnessesSize, HasWitness, InputsFit, OutputsFit;
    CompactSized(|tx.inputs|);
    CompactSized(|tx.outputs|);
    OutputsSized(tx.outputs, tx.locktime);
    InputsSized(tx.inputs, Compact(|tx.outputs|) + PutOutputs(tx.outputs, tx.locktime));
    if HasWitness(tx.inputs) {
      var ws := PutWitnesses(tx.inputs, tx.locktime);
      WitnessesSized(tx.inputs, tx.locktime);
      OutputsSized(tx.outputs, ws);
      InputsSized(tx.inputs, Compact(|tx.outputs|) + PutOutputs(tx.outputs, ws));
    }
  }
}
