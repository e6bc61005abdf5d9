/**
 Where every field stands in a registry manifest
 (crates/deployment-registry/src/codec.rs).
 */
module RegistryLayout {
  import opened Wire
  import opened RegistryCodec

  /** The tags that stand for networks. */
  lemma TagValues()
    ensures MAGIC == ToAscii("DOMREG1\0")
    ensures DomTag(Mainnet) == 1 && DomTag(Testnet) == 2 && DomTag(Regtest) == 3
    ensures BitcoinTag(BitcoinRegtest) == 1 && BitcoinTag(CustomSignet) == 2 && BitcoinTag(PublicSignet) == 3
    ensures MoneroTag(MoneroMainnet) == 1 && MoneroTag(Stagenet) == 2 && MoneroTag(MoneroTestnet) == 3
    ensures SolanaTag(Devnet) == 2 && SolanaTag(SolanaTestnet) == 3 && SolanaTag(LocalValidator) == 4
  {
  }

  // ===== Timing, finality and the hub

  predicate TimingAt(m: Bytes, at: nat, t: Timing)
    requires at + 20 <= |m|
  {
    && FromBE(m[at..at + 4]) == t.minBlock && FromBE(m[at + 4..at + 8]) == t.maxBlock && FromBE(m[at + 8..at + 12]) == t.maxReorg
    && FromBE(m[at + 12..at + 16]) == t.observation && FromBE(m[at + 16..at + 20]) == t.broadcast
  }

  lemma TimingLayout(m: Bytes, at: nat, t: Timing, rest: Bytes)
    requires TimingFits(t) && at <= |m| && m[at..] == PutTiming(t, rest)
    ensures at + 20 <= |m| && TimingAt(m, at, t) && m[at + 20..] == rest
  {
    hide ToBE, FromBE, Pow256;
    var t4 := ToBE(t.broadcast, 4) + rest;
    var t3 := ToBE(t.observation, 4) + t4;
    var t2 := ToBE(t.maxReorg, 4) + t3;
    PeelNumber(m, at, t.minBlock, 4, ToBE(t.maxBlock, 4) + t2);
    PeelNumber(m, at + 4, t.maxBlock, 4, t2);
    PeelNumber(m, at + 8, t.maxReorg, 4, t3);
    PeelNumber(m, at + 12, t.observation, 4, t4);
    PeelNumber(m, at + 16, t.broadcast, 4, rest);
  }

  predicate FinalityAt(m: Bytes, at: nat, f: Finality)
    requires at + 8 <= |m|
  {
    FromBE(m[at..at + 4]) == f.minConfirmations && FromBE(m[at + 4..at + 8]) == f.maxReorgDepth
  }

  lemma FinalityLayout(m: Bytes, at: nat, f: Finality, rest: Bytes)
    requires FinalityFits(f) && at <= |m| && m[at..] == PutFinality(f, rest)
    ensures at + 8 <= |m| && FinalityAt(m, at, f) && m[at + 8..] == rest
  {
    hide ToBE, FromBE, Pow256;
    PeelNumber(m, at, f.minConfirmations, 4, ToBE(f.maxReorgDepth, 4) + rest);
    PeelNumber(m, at + 4, f.maxReorgDepth, 4, rest);
  }

  predicate DomAt(m: Bytes, at: nat, d: Dom)
    requires at + 170 <= |m|
  {
    && m[at..at + 32] == d.chainId && m[at + 32..at + 64] == d.genesis && m[at + 64] == DomTag(d.network)
    && FromBE(m[at + 65..at + 69]) == d.magic && FromBE(m[at + 69..at + 73]) == d.protocol && m[at + 73] == d.rangeProof
    && m[at + 74..at + 106] == d.consensusRules && FromBE(m[at + 106..at + 110]) == d.scriptlessApi
    && TimingAt(m, at + 110, d.timing) && FinalityAt(m, at + 130, d.finality) && m[at + 138..at + 170] == d.nativeAsset
  }

  lemma DomLayout(m: Bytes, at: nat, d: Dom, rest: Bytes)
    requires DomFits(d) && at <= |m| && m[at..] == PutDom(d, rest)
    ensures at + 170 <= |m| && DomAt(m, at, d) && m[at + 170..] == rest
  {
    hide ToBE, FromBE, Pow256, PutTiming, PutFinality, TimingAt, FinalityAt, TimingFits, FinalityFits, DomTag;
    var t9 := d.nativeAsset + rest;
    var t8 := PutFinality(d.finality, t9);
    var t7 := PutTiming(d.timing, t8);
    var t6 := ToBE(d.scriptlessApi, 4) + t7;
    var t5 := d.consensusRules + t6;
    var t4 := [d.rangeProof] + t5;
    var t3 := ToBE(d.protocol, 4) + t4;
    var t2 := ToBE(d.magic, 4) + t3;
    var t1 := [DomTag(d.network)] + t2;
    Peel(m, at, d.chainId, d.genesis + t1);
    Peel(m, at + 32, d.genesis, t1);
    PeelByte(m, at + 64, DomTag(d.network), t2);
    PeelNumber(m, at + 65, d.magic, 4, t3);
    PeelNumber(m, at + 69, d.protocol, 4, t4);
    PeelByte(m, at + 73, d.rangeProof, t5);
    Peel(m, at + 74, d.consensusRules, t6);
    PeelNumber(m, at + 106, d.scriptlessApi, 4, t7);
    TimingLayout(m, at + 110, d.timing, t8);
    FinalityLayout(m, at + 130, d.finality, t9);
    Peel(m, at + 138, d.nativeAsset, rest);
  }

  // ===== Chains

  function KindWidth(k: Kind): nat {
    match k
    case Evm(_, _, _, erc20) => if erc20.Some? then 114 else 62
    case Bitcoin(_) => 2
    case Monero(_) => 2
    case Solana(_, _, _) => 66
  }

  predicate KindAt(m: Bytes, at: nat, k: Kind)
    requires at + KindWidth(k) <= |m|
  {
    match k
    case Evm(id, lock, code, erc20) =>
      && m[at] == 1 && FromBE(m[at + 1..at + 9]) == id && m[at + 9..at + 29] == lock && m[at + 29..at + 61] == code
      && m[at + 61] == (if erc20.Some? then 1 else 0)
      && (erc20.Some? ==> m[at + 62..at + 82] == erc20.value.contract && m[at + 82..at + 114] == erc20.value.codeHash)
    case Bitcoin(n) => m[at] == 2 && m[at + 1] == BitcoinTag(n)
    case Monero(n) => m[at] == 3 && m[at + 1] == MoneroTag(n)
    case Solana(n, program, data) =>
      m[at] == 4 && m[at + 1] == SolanaTag(n) && m[at + 2..at + 34] == program && m[at + 34..at + 66] == data
  }

  lemma KindLayout(m: Bytes, at: nat, k: Kind, rest: Bytes)
    requires KindFits(k) && at <= |m| && m[at..] == PutKind(k, rest)
    ensures at + KindWidth(k) <= |m| && KindAt(m, at, k) && m[at + KindWidth(k)..] == rest
  {
    hide ToBE, FromBE, Pow256, BitcoinTag, MoneroTag, SolanaTag;
    match k
    case Evm(id, lock, code, erc20) =>
      var t := PutTokenLock(erc20, rest);
      PeelByte(m, at, 1, ToBE(id, 8) + (lock + (code + t)));
      PeelNumber(m, at + 1, id, 8, lock + (code + t));
      Peel(m, at + 9, lock, code + t);
      Peel(m, at + 29, code, t);
      if erc20.Some? {
        PeelByte(m, at + 61, 1, erc20.value.contract + (erc20.value.codeHash + rest));
        Peel(m, at + 62, erc20.value.contract, erc20.value.codeHash + rest);
        Peel(m, at + 82, erc20.value.codeHash, rest);
      } else {
        PeelByte(m, at + 61, 0, rest);
      }
    case Bitcoin(n) =>
      PeelByte(m, at, 2, [BitcoinTag(n)] + rest);
      PeelByte(m, at + 1, BitcoinTag(n), rest);
    case Monero(n) =>
      PeelByte(m, at, 3, [MoneroTag(n)] + rest);
      PeelByte(m, at + 1, MoneroTag(n), rest);
    case Solana(n, program, data) =>
      PeelByte(m, at, 4, [SolanaTag(n)] + (program + (data + rest)));
      PeelByte(m, at + 1, SolanaTag(n), program + (data + rest));
      Peel(m, at + 2, program, data + rest);
      Peel(m, at + 34, data, rest);
  }

  function DeploymentWidth(d: Deployment): nat {
    match d
    case EvmDeployment(_, _, erc20, _, _, _, _, _, _, _, _, _) => if erc20.Some? then 227 else 219
    case BitcoinDeployment(_, challenge, _, _) => 51 + |challenge|
    case MoneroDeployment(_, _) => 41
    case SolanaDeployment(_, _) => 41
  }

  predicate DeploymentAt(m: Bytes, at: nat, d: Deployment)
    requires at + DeploymentWidth(d) <= |m|
  {
    match d
    case EvmDeployment(genesis, start, erc20, abi, compiler, source, record, tag, page, gas, fee, priority) =>
      var a := at + if erc20.Some? then 50 else 42;
      && m[at] == 1 && m[at + 1..at + 33] == genesis && FromBE(m[at + 33..at + 41]) == start
      && m[at + 41] == (if erc20.Some? then 1 else 0) && (erc20.Some? ==> FromBE(m[at + 42..at + 50]) == erc20.value)
      && m[a..a + 32] == abi && m[a + 32..a + 64] == compiler && m[a + 64..a + 96] == source && m[a + 96..a + 128] == record
      && m[a + 128] == (if tag then 1 else 0) && FromBE(m[a + 129..a + 137]) == page && FromBE(m[a + 137..a + 145]) == gas
      && FromBE(m[a + 145..a + 161]) == fee && FromBE(m[a + 161..a + 177]) == priority
    case BitcoinDeployment(genesis, challenge, rate, relay) =>
      var a := at + 35 + |challenge|;
      && m[at] == 2 && m[at + 1..at + 33] == genesis && FromBE(m[at + 33..at + 35]) == |challenge|
      && m[at + 35..a] == challenge && FromBE(m[a..a + 8]) == rate && FromBE(m[a + 8..a + 16]) == relay
    case MoneroDeployment(genesis, fee) => m[at] == 3 && m[at + 1..at + 33] == genesis && FromBE(m[at + 33..at + 41]) == fee
    case SolanaDeployment(genesis, fee) => m[at] == 4 && m[at + 1..at + 33] == genesis && FromBE(m[at + 33..at + 41]) == fee
  }

  lemma EvmLayout(m: Bytes, at: nat, d: Deployment, rest: Bytes)
    requires d.EvmDeployment? && DeploymentFits(d) && at <= |m| && m[at..] == PutDeployment(d, rest)
    ensures at + DeploymentWidth(d) <= |m| && DeploymentAt(m, at, d) && m[at + DeploymentWidth(d)..] == rest
  {
    hide ToBE, FromBE, Pow256;
    var a := at + if d.erc20Start.Some? then 50 else 42;
    var flag := if d.finalizedTag then 1 else 0;
    var t9 := ToBE(d.maxPriorityFee, 16) + rest;
    var t8 := ToBE(d.maxFee, 16) + t9;
    var t7 := ToBE(d.gasLimit, 8) + t8;
    var t6 := ToBE(d.pageSize, 8) + t7;
    var t5 := [flag] + t6;
    var t4 := d.record + t5;
    var t3 := d.source + t4;
    var t2 := d.compiler + t3;
    var t1 := d.abi + t2;
    PeelByte(m, at, 1, PutEvmDeployment(d, rest));
    EvmStart(m, at, d, t1);
    EvmRest(m, a, d, rest);
  }

  lemma EvmStart(m: Bytes, at: nat, d: Deployment, t: Bytes)
    requires d.EvmDeployment? && DeploymentFits(d) && at + 1 <= |m|
    requires m[at + 1..] == d.genesis + (ToBE(d.nativeStart, 8) + PutStart(d.erc20Start, t))
    ensures var a := at + if d.erc20Start.Some? then 50 else 42;
      && a <= |m| && m[a..] == t && m[at + 1..at + 33] == d.genesis && FromBE(m[at + 33..at + 41]) == d.nativeStart
      && m[at + 41] == (if d.erc20Start.Some? then 1 else 0)
      && (d.erc20Start.Some? ==> FromBE(m[at + 42..at + 50]) == d.erc20Start.value)
  {
    hide ToBE, FromBE, Pow256;
    Peel(m, at + 1, d.genesis, ToBE(d.nativeStart, 8) + PutStart(d.erc20Start, t));
    PeelNumber(m, at + 33, d.nativeStart, 8, PutStart(d.erc20Start, t));
    if d.erc20Start.Some? {
      PeelByte(m, at + 41, 1, ToBE(d.erc20Start.value, 8) + t);
      PeelNumber(m, at + 42, d.erc20Start.value, 8, t);
    } else {
      PeelByte(m, at + 41, 0, t);
    }
  }

  lemma EvmRest(m: Bytes, a: nat, d: Deployment, rest: Bytes)
    requires d.EvmDeployment? && DeploymentFits(d) && a <= |m|
    requires m[a..] == d.abi + (d.compiler + (d.source + (d.record + ([if d.finalizedTag then 1 else 0]
      + (ToBE(d.pageSize, 8) + (ToBE(d.gasLimit, 8) + (ToBE(d.maxFee, 16) + (ToBE(d.maxPriorityFee, 16) + rest))))))))
    ensures a + 177 <= |m| && m[a + 177..] == rest
    ensures m[a..a + 32] == d.abi && m[a + 32..a + 64] == d.compiler && m[a + 64..a + 96] == d.source
    ensures m[a + 96..a + 128] == d.record && m[a + 128] == (if d.finalizedTag then 1 else 0)
    ensures FromBE(m[a + 129..a + 137]) == d.pageSize && FromBE(m[a + 137..a + 145]) == d.gasLimit
    ensures FromBE(m[a + 145..a + 161]) == d.maxFee && FromBE(m[a + 161..a + 177]) == d.maxPriorityFee
  {
    hide ToBE, FromBE, Pow256;
    var flag := if d.finalizedTag then 1 else 0;
    var t9 := ToBE(d.maxPriorityFee, 16) + rest;
    var t8 := ToBE(d.maxFee, 16) + t9;
    var t7 := ToBE(d.gasLimit, 8) + t8;
    var t6 := ToBE(d.pageSize, 8) + t7;
    var t5 := [flag] + t6;
    var t4 := d.record + t5;
    var t3 := d.source + t4;
    var t2 := d.compiler + t3;
    Peel(m, a, d.abi, t2);
    Peel(m, a + 32, d.compiler, t3);
    Peel(m, a + 64, d.source, t4);
    Peel(m, a + 96, d.record, t5);
    PeelByte(m, a + 128, flag, t6);
    PeelNumber(m, a + 129, d.pageSize, 8, t7);
    PeelNumber(m, a + 137, d.gasLimit, 8, t8);
    PeelNumber(m, a + 145, d.maxFee, 16, t9);
    PeelNumber(m, a + 161, d.maxPriorityFee, 16, rest);
  }

  lemma DeploymentLayout(m: Bytes, at: nat, d: Deployment, rest: Bytes)
    requires DeploymentFits(d) && at <= |m| && m[at..] == PutDeployment(d, rest)
    ensures at + DeploymentWidth(d) <= |m| && DeploymentAt(m, at, d) && m[at + DeploymentWidth(d)..] == rest
  {
    hide ToBE, FromBE, Pow256;
    match d
    case EvmDeployment(_, _, _, _, _, _, _, _, _, _, _, _) => EvmLayout(m, at, d, rest);
    case BitcoinDeployment(genesis, challenge, rate, relay) =>
      Pow256Values();
      var a := at + 35 + |challenge|;
      var t := ToBE(rate, 8) + (ToBE(relay, 8) + rest);
      PeelByte(m, at, 2, genesis + (ToBE(|challenge|, 2) + (challenge + t)));
      Peel(m, at + 1, genesis, ToBE(|challenge|, 2) + (challenge + t));
      PeelNumber(m, at + 33, |challenge|, 2, challenge + t);
      Peel(m, at + 35, challenge, t);
      PeelNumber(m, a, rate, 8, ToBE(relay, 8) + rest);
      PeelNumber(m, a + 8, relay, 8, rest);
    case MoneroDeployment(genesis, fee) =>
      PeelByte(m, at, 3, genesis + (ToBE(fee, 8) + rest));
      Peel(m, at + 1, genesis, ToBE(fee, 8) + rest);
      PeelNumber(m, at + 33, fee, 8, rest);
    case SolanaDeployment(genesis, fee) =>
      PeelByte(m, at, 4, genesis + (ToBE(fee, 8) + rest));
      Peel(m, at + 1, genesis, ToBE(fee, 8) + rest);
      PeelNumber(m, at + 33, fee, 8, rest);
  }

  predicate AllowedAt(m: Bytes, at: nat, assets: seq<Bytes>)
    requires at + 32 * |assets| <= |m|
  {
    forall i :: 0 <= i < |assets| ==> m[at + 32 * i..at + 32 * i + 32] == assets[i]
  }

  lemma {:induction false} AllowedLayout(m: Bytes, at: nat, assets: seq<Bytes>, rest: Bytes)
    requires AllowedFits(assets) && at <= |m| && m[at..] == PutAllowed(assets, rest)
    ensures at + 32 * |assets| <= |m| && AllowedAt(m, at, assets) && m[at + 32 * |assets|..] == rest
    decreases |assets|
  {
    if assets != [] {
      Peel(m, at, assets[0], PutAllowed(assets[1..], rest));
      AllowedLayout(m, at + 32, assets[1..], rest);
      forall i | 0 <= i < |assets|
        ensures m[at + 32 * i..at + 32 * i + 32] == assets[i]
      {
        if i > 0 {
          var b := at + 32;
          assert m[b + 32 * (i - 1)..b + 32 * (i - 1) + 32] == assets[1..][i - 1];
        }
      }
    }
  }

  function ChainWidth(c: Chain): nat {
    94 + KindWidth(c.kind) + 32 * |c.allowed| + DeploymentWidth(c.deployment)
  }

  predicate ChainAt(m: Bytes, at: nat, c: Chain)
    requires at + ChainWidth(c) <= |m|
  {
    var a := at + 32 + KindWidth(c.kind);
    && m[at..at + 32] == c.chainId && KindAt(m, at + 32, c.kind) && TimingAt(m, a, c.timing) && FinalityAt(m, a + 20, c.finality)
    && m[a + 28..a + 60] == c.nativeAsset && FromBE(m[a + 60..a + 62]) == |c.allowed| && AllowedAt(m, a + 62, c.allowed)
    && DeploymentAt(m, a + 62 + 32 * |c.allowed|, c.deployment)
  }

  lemma ChainLayout(m: Bytes, at: nat, c: Chain, rest: Bytes)
    requires ChainFits(c) && at <= |m| && m[at..] == PutChain(c, rest)
    ensures at + ChainWidth(c) <= |m| && ChainAt(m, at, c) && m[at + ChainWidth(c)..] == rest
  {
    hide ToBE, FromBE, Pow256, PutKind, PutTiming, PutFinality, PutAllowed, PutDeployment, KindAt, TimingAt, FinalityAt, AllowedAt,
         DeploymentAt, KindWidth, DeploymentWidth, KindFits, TimingFits, FinalityFits, DeploymentFits;
    Pow256Values();
    var a := at + 32 + KindWidth(c.kind);
    var t6 := PutDeployment(c.deployment, rest);
    var t5 := PutAllowed(c.allowed, t6);
    var t4 := ToBE(|c.allowed|, 2) + t5;
    var t3 := c.nativeAsset + t4;
    var t2 := PutFinality(c.finality, t3);
    var t1 := PutTiming(c.timing, t2);
    Peel(m, at, c.chainId, PutKind(c.kind, t1));
    KindLayout(m, at + 32, c.kind, t1);
    TimingLayout(m, a, c.timing, t2);
    FinalityLayout(m, a + 20, c.finality, t3);
    Peel(m, a + 28, c.nativeAsset, t4);
    PeelNumber(m, a + 60, |c.allowed|, 2, t5);
    AllowedLayout(m, a + 62, c.allowed, t6);
    DeploymentLayout(m, a + 62 + 32 * |c.allowed|, c.deployment, rest);
  }

  function ChainsWidth(cs: seq<Chain>): nat {
    if cs == [] then 0 else ChainWidth(cs[0]) + ChainsWidth(cs[1..])
  }

  predicate ChainsAt(m: Bytes, at: nat, cs: seq<Chain>)
    requires at + ChainsWidth(cs) <= |m|
    decreases |cs|
  {
    cs == [] || (ChainAt(m, at, cs[0]) && ChainsAt(m, at + ChainWidth(cs[0]), cs[1..]))
  }

  lemma {:induction false} ChainsLayout(m: Bytes, at: nat, cs: seq<Chain>, rest: Bytes)
    requires ChainsFit(cs) && at <= |m| && m[at..] == PutChains(cs, rest)
    ensures at + ChainsWidth(cs) <= |m| && ChainsAt(m, at, cs) && m[at + ChainsWidth(cs)..] == rest
    decreases |cs|
  {
    hide ChainAt, ChainWidth, PutChain, ChainFits;
    if cs != [] {
      ChainLayout(m, at, cs[0], PutChains(cs[1..], rest));
      ChainsLayout(m, at + ChainWidth(cs[0]), cs[1..], rest);
    }
  }

  // ===== Assets and the manifest

  function AssetWidth(a: Asset): nat {
    if a.representation.Native? then 66 else 118
  }

  predicate AssetAt(m: Bytes, at: nat, a: Asset)
    requires at + AssetWidth(a) <= |m|
  {
    && m[at..at + 32] == a.chainId && m[at + 32..at + 64] == a.assetId && m[at + 64] == a.decimals
    && match a.representation
       case Native => m[at + 65] == 1
       case Erc20(token, hash) => m[at + 65] == 2 && m[at + 66..at + 86] == token && m[at + 86..at + 118] == hash
  }

  lemma AssetLayout(m: Bytes, at: nat, a: Asset, rest: Bytes)
    requires AssetFits(a) && at <= |m| && m[at..] == PutAsset(a, rest)
    ensures at + AssetWidth(a) <= |m| && AssetAt(m, at, a) && m[at + AssetWidth(a)..] == rest
  {
    var t := PutRepresentation(a.representation, rest);
    Peel(m, at, a.chainId, a.assetId + ([a.decimals] + t));
    Peel(m, at + 32, a.assetId, [a.decimals] + t);
    PeelByte(m, at + 64, a.decimals, t);
    match a.representation
    case Native => PeelByte(m, at + 65, 1, rest);
    case Erc20(token, hash) =>
      PeelByte(m, at + 65, 2, token + (hash + rest));
      Peel(m, at + 66, token, hash + rest);
      Peel(m, at + 86, hash, rest);
  }

  function AssetsWidth(bindings: seq<Asset>): nat {
    if bindings == [] then 0 else AssetWidth(bindings[0]) + AssetsWidth(bindings[1..])
  }

  predicate AssetsAt(m: Bytes, at: nat, bindings: seq<Asset>)
    requires at + AssetsWidth(bindings) <= |m|
    decreases |bindings|
  {
    bindings == [] || (AssetAt(m, at, bindings[0]) && AssetsAt(m, at + AssetWidth(bindings[0]), bindings[1..]))
  }

  lemma {:induction false} AssetsLayout(m: Bytes, at: nat, bindings: seq<Asset>, rest: Bytes)
    requires AssetsFit(bindings) && at <= |m| && m[at..] == PutAssets(bindings, rest)
    ensures at + AssetsWidth(bindings) <= |m| && AssetsAt(m, at, bindings) && m[at + AssetsWidth(bindings)..] == rest
    decreases |bindings|
  {
    hide AssetAt, AssetWidth, PutAsset, AssetFits;
    if bindings != [] {
      AssetLayout(m, at, bindings[0], PutAssets(bindings[1..], rest));
      AssetsLayout(m, at + AssetWidth(bindings[0]), bindings[1..], rest);
    }
  }

  /** Magic, version 2 and two zero bytes, the validity window, the hub, and the two counted lists. */
  lemma ManifestLayout(m: Manifest)
    requires ManifestFits(m)
    ensures var b := PutManifest(m, []); var a := 240 + ChainsWidth(m.chains);
      && |b| == a + 2 + AssetsWidth(m.assets)
      && b[..8] == MAGIC && FromBE(b[8..10]) == 2 && FromBE(b[10..12]) == 0 && b[12..44] == m.networkId
      && FromBE(b[44..52]) == m.epoch && FromBE(b[52..60]) == m.validFrom && FromBE(b[60..68]) == m.expiresAt
      && DomAt(b, 68, m.dom) && FromBE(b[238..240]) == |m.chains| && ChainsAt(b, 240, m.chains)
      && FromBE(b[a..a + 2]) == |m.assets| && AssetsAt(b, a + 2, m.assets)
  {
    hide ToBE, FromBE, Pow256, PutDom, PutChains, PutAssets, DomAt, ChainsAt, AssetsAt, ChainsWidth, AssetsWidth, DomFits, ChainsFit, AssetsFit;
    Pow256Values();
    var b, a := PutManifest(m, []), 240 + ChainsWidth(m.chains);
    var t9 := PutAssets(m.assets, []);
    var t8 := ToBE(|m.assets|, 2) + t9;
    var t7 := PutChains(m.chains, t8);
    var t6 := ToBE(|m.chains|, 2) + t7;
    var t5 := PutDom(m.dom, t6);
    var t4 := ToBE(m.expiresAt, 8) + t5;
    var t3 := ToBE(m.validFrom, 8) + t4;
    var t2 := ToBE(m.epoch, 8) + t3;
    var t1 := m.networkId + t2;
    assert b[0..] == b;
    Peel(b, 0, MAGIC, ToBE(REGISTRY_VERSION, 2) + (ToBE(0, 2) + t1));
    PeelNumber(b, 8, REGISTRY_VERSION, 2, ToBE(0, 2) + t1);
    PeelNumber(b, 10, 0, 2, t1);
    Peel(b, 12, m.networkId, t2);
    PeelNumber(b, 44, m.epoch, 8, t3);
    PeelNumber(b, 52, m.validFrom, 8, t4);
    PeelNumber(b, 60, m.expiresAt, 8, t5);
    DomLayout(b, 68, m.dom, t6);
    PeelNumber(b, 238, |m.chains|, 2, t7);
    ChainsLayout(b, 240, m.chains, t8);
    PeelNumber(b, a, |m.assets|, 2, t9);
    AssetsLayout(b, a + 2, m.assets, []);
  }
}
