/**
 The canonical registry manifest of crates/deployment-registry/src/codec.rs: the
 document, its bytes and the two directions of the codec.
 */
module RegistryCodec {
  import opened Wire

  const MAX_CHAINS := 32
  const MAX_ASSET_BINDINGS := 256
  const MAX_ALLOWED_ASSETS := 64
  const MAX_SIGNET_CHALLENGE_BYTES := 520
  const MAX_MANIFEST_BYTES := 256 * 1024
  const REGISTRY_VERSION := 2
  // ASCII "DOMREG1" and a zero byte.
  const MAGIC: Bytes := [68, 79, 77, 82, 69, 71, 49, 0]

  datatype RegistryError = NonCanonicalEncoding | UnsupportedVersion | BoundExceeded

  type Reading<T> = Parsed<T, RegistryError>

  // ===== The document

  datatype DomNetwork = Mainnet | Testnet | Regtest
  datatype BitcoinNetwork = BitcoinRegtest | CustomSignet | PublicSignet
  datatype MoneroNetwork = MoneroMainnet | Stagenet | MoneroTestnet
  datatype SolanaNetwork = Devnet | SolanaTestnet | LocalValidator

  datatype Timing = Timing(minBlock: nat, maxBlock: nat, maxReorg: nat, observation: nat, broadcast: nat)
  datatype Finality = Finality(minConfirmations: nat, maxReorgDepth: nat)

  datatype Dom = Dom(chainId: Bytes, genesis: Bytes, network: DomNetwork, magic: nat, protocol: nat,
    rangeProof: Byte, consensusRules: Bytes, scriptlessApi: nat, timing: Timing, finality: Finality,
    nativeAsset: Bytes)

  datatype TokenLock = TokenLock(contract: Bytes, codeHash: Bytes)

  datatype Kind =
    | Evm(evmChainId: nat, nativeLock: Bytes, nativeCode: Bytes, erc20: Option<TokenLock>)
    | Bitcoin(bitcoin: BitcoinNetwork)
    | Monero(monero: MoneroNetwork)
    | Solana(solana: SolanaNetwork, escrowProgram: Bytes, programData: Bytes)

  datatype Deployment =
    | EvmDeployment(genesis: Bytes, nativeStart: nat, erc20Start: Option<nat>, abi: Bytes, compiler: Bytes,
        source: Bytes, record: Bytes, finalizedTag: bool, pageSize: nat, gasLimit: nat, maxFee: nat,
        maxPriorityFee: nat)
    | BitcoinDeployment(genesis: Bytes, challenge: Bytes, maxFeeRate: nat, minRelayFee: nat)
    | MoneroDeployment(genesis: Bytes, maxFeePiconero: nat)
    | SolanaDeployment(genesis: Bytes, maxFeeLamports: nat)

  datatype Chain = Chain(chainId: Bytes, kind: Kind, timing: Timing, finality: Finality, nativeAsset: Bytes,
    allowed: seq<Bytes>, deployment: Deployment)

  datatype Representation = Native | Erc20(token: Bytes, codeHash: Bytes)
  datatype Asset = Asset(chainId: Bytes, assetId: Bytes, decimals: Byte, representation: Representation)

  datatype Manifest = Manifest(networkId: Bytes, epoch: nat, validFrom: nat, expiresAt: nat, dom: Dom,
    chains: seq<Chain>, assets: seq<Asset>)

  // ===== Field widths: what the types of the source guarantee, plus the counts the decoder accepts

  predicate TimingFits(t: Timing) {
    && t.minBlock < Pow256(4) && t.maxBlock < Pow256(4) && t.maxReorg < Pow256(4)
    && t.observation < Pow256(4) && t.broadcast < Pow256(4)
  }

  predicate FinalityFits(f: Finality) {
    f.minConfirmations < Pow256(4) && f.maxReorgDepth < Pow256(4)
  }

  predicate DomFits(d: Dom) {
    && |d.chainId| == 32 && |d.genesis| == 32 && d.magic < Pow256(4) && d.protocol < Pow256(4)
    && |d.consensusRules| == 32 && d.scriptlessApi < Pow256(4) && TimingFits(d.timing)
    && FinalityFits(d.finality) && |d.nativeAsset| == 32
  }

  predicate KindFits(k: Kind) {
    match k
    case Evm(id, lock, code, erc20) =>
      && id < Pow256(8) && |lock| == 20 && |code| == 32
      && (erc20.Some? ==> |erc20.value.contract| == 20 && |erc20.value.codeHash| == 32)
    case Bitcoin(_) => true
    case Monero(_) => true
    case Solana(_, program, data) => |program| == 32 && |data| == 32
  }

  predicate DeploymentFits(d: Deployment) {
    && |d.genesis| == 32
    && match d
       case EvmDeployment(_, start, erc20, abi, compiler, source, record, _, page, gas, fee, priority) =>
         && start < Pow256(8) && (erc20.Some? ==> erc20.value < Pow256(8))
         && |abi| == 32 && |compiler| == 32 && |source| == 32 && |record| == 32
         && page < Pow256(8) && gas < Pow256(8) && fee < Pow256(16) && priority < Pow256(16)
       case BitcoinDeployment(_, challenge, rate, relay) =>
         |challenge| <= MAX_SIGNET_CHALLENGE_BYTES && rate < Pow256(8) && relay < Pow256(8)
       case MoneroDeployment(_, fee) => fee < Pow256(8)
       case SolanaDeployment(_, fee) => fee < Pow256(8)
  }

  predicate AllowedFits(assets: seq<Bytes>) {
    forall i :: 0 <= i < |assets| ==> |assets[i]| == 32
  }

  predicate ChainFits(c: Chain) {
    && |c.chainId| == 32 && KindFits(c.kind) && TimingFits(c.timing) && FinalityFits(c.finality)
    && |c.nativeAsset| == 32 && |c.allowed| <= MAX_ALLOWED_ASSETS && AllowedFits(c.allowed)
    && DeploymentFits(c.deployment)
  }

  predicate ChainsFit(cs: seq<Chain>) {
    forall i :: 0 <= i < |cs| ==> ChainFits(cs[i])
  }

  predicate AssetFits(a: Asset) {
    && |a.chainId| == 32 && |a.assetId| == 32
    && (a.representation.Erc20? ==> |a.representation.token| == 20 && |a.representation.codeHash| == 32)
  }

  predicate AssetsFit(bindings: seq<Asset>) {
    forall i :: 0 <= i < |bindings| ==> AssetFits(bindings[i])
  }

  predicate ManifestFits(m: Manifest) {
    && |m.networkId| == 32 && m.epoch < Pow256(8) && m.validFrom < Pow256(8) && m.expiresAt < Pow256(8)
    && DomFits(m.dom)
    && 0 < |m.chains| <= MAX_CHAINS && ChainsFit(m.chains)
    && 0 < |m.assets| <= MAX_ASSET_BINDINGS && AssetsFit(m.assets)
  }

  // ===== Tags

  function DomTag(n: DomNetwork): Byte {
    match n case Mainnet => 1 case Testnet => 2 case Regtest => 3
  }

  function BitcoinTag(n: BitcoinNetwork): Byte {
    match n case BitcoinRegtest => 1 case CustomSignet => 2 case PublicSignet => 3
  }

  function MoneroTag(n: MoneroNetwork): Byte {
    match n case MoneroMainnet => 1 case Stagenet => 2 case MoneroTestnet => 3
  }

  function SolanaTag(n: SolanaNetwork): Byte {
    match n case Devnet => 2 case SolanaTestnet => 3 case LocalValidator => 4
  }

  // ===== Encoding: every encoder puts its fields in front of the bytes that follow

  function PutTiming(t: Timing, rest: Bytes): Bytes {
    ToBE(t.minBlock, 4) + (ToBE(t.maxBlock, 4) + (ToBE(t.maxReorg, 4)
      + (ToBE(t.observation, 4) + (ToBE(t.broadcast, 4) + rest))))
  }

  function PutFinality(f: Finality, rest: Bytes): Bytes {
    ToBE(f.minConfirmations, 4) + (ToBE(f.maxReorgDepth, 4) + rest)
  }

  function PutDom(d: Dom, rest: Bytes): Bytes {
    d.chainId + (d.genesis + ([DomTag(d.network)] + (ToBE(d.magic, 4) + (ToBE(d.protocol, 4)
      + ([d.rangeProof] + (d.consensusRules + (ToBE(d.scriptlessApi, 4)
      + PutTiming(d.timing, PutFinality(d.finality, d.nativeAsset + rest)))))))))
  }

  function PutTokenLock(o: Option<TokenLock>, rest: Bytes): Bytes {
    match o
    case None => [0] + rest
    case Some(t) => [1] + (t.contract + (t.codeHash + rest))
  }

  function PutKind(k: Kind, rest: Bytes): Bytes {
    match k
    case Evm(id, lock, code, erc20) =>
      [1] + (ToBE(id, 8) + (lock + (code + PutTokenLock(erc20, rest))))
    case Bitcoin(n) => [2] + ([BitcoinTag(n)] + rest)
    case Monero(n) => [3] + ([MoneroTag(n)] + rest)
    case Solana(n, program, data) => [4] + ([SolanaTag(n)] + (program + (data + rest)))
  }

  function PutStart(o: Option<nat>, rest: Bytes): Bytes {
    match o
    case None => [0] + rest
    case Some(v) => [1] + (ToBE(v, 8) + rest)
  }

  function PutEvmDeployment(d: Deployment, rest: Bytes): Bytes
    requires d.EvmDeployment?
  {
    d.genesis + (ToBE(d.nativeStart, 8) + PutStart(d.erc20Start, d.abi + (d.compiler + (d.source + (d.record
      + ([if d.finalizedTag then 1 else 0] + (ToBE(d.pageSize, 8) + (ToBE(d.gasLimit, 8)
      + (ToBE(d.maxFee, 16) + (ToBE(d.maxPriorityFee, 16) + rest))))))))))
  }

  function PutBitcoinDeployment(d: Deployment, rest: Bytes): Bytes
    requires d.BitcoinDeployment?
  {
    d.genesis + (ToBE(|d.challenge|, 2) + (d.challenge + (ToBE(d.maxFeeRate, 8) + (ToBE(d.minRelayFee, 8) + rest))))
  }

  function PutDeployment(d: Deployment, rest: Bytes): Bytes {
    match d
    case EvmDeployment(_, _, _, _, _, _, _, _, _, _, _, _) => [1] + PutEvmDeployment(d, rest)
    case BitcoinDeployment(_, _, _, _) => [2] + PutBitcoinDeployment(d, rest)
    case MoneroDeployment(genesis, fee) => [3] + (genesis + (ToBE(fee, 8) + rest))
    case SolanaDeployment(genesis, fee) => [4] + (genesis + (ToBE(fee, 8) + rest))
  }

  function PutAllowed(assets: seq<Bytes>, rest: Bytes): Bytes {
    if assets == [] then rest else assets[0] + PutAllowed(assets[1..], rest)
  }

  function PutChain(c: Chain, rest: Bytes): Bytes {
    c.chainId + PutKind(c.kind, PutTiming(c.timing, PutFinality(c.finality, c.nativeAsset
      + (ToBE(|c.allowed|, 2) + PutAllowed(c.allowed, PutDeployment(c.deployment, rest))))))
  }

  function PutChains(cs: seq<Chain>, rest: Bytes): Bytes {
    if cs == [] then rest else PutChain(cs[0], PutChains(cs[1..], rest))
  }

  function PutRepresentation(r: Representation, rest: Bytes): Bytes {
    match r
    case Native => [1] + rest
    case Erc20(token, hash) => [2] + (token + (hash + rest))
  }

  function PutAsset(a: Asset, rest: Bytes): Bytes {
    a.chainId + (a.assetId + ([a.decimals] + PutRepresentation(a.representation, rest)))
  }

  function PutAssets(bindings: seq<Asset>, rest: Bytes): Bytes {
    if bindings == [] then rest else PutAsset(bindings[0], PutAssets(bindings[1..], rest))
  }

  function PutManifest(m: Manifest, rest: Bytes): Bytes {
    MAGIC + (ToBE(REGISTRY_VERSION, 2) + (ToBE(0, 2) + (m.networkId + (ToBE(m.epoch, 8)
      + (ToBE(m.validFrom, 8) + (ToBE(m.expiresAt, 8) + PutDom(m.dom, ToBE(|m.chains|, 2)
      + PutChains(m.chains, ToBE(|m.assets|, 2) + PutAssets(m.assets, rest)))))))))
  }

  /** Lists must fit their two-byte counts, and the whole its size limit. */
  predicate Countable(m: Manifest) {
    && |m.chains| < Pow256(2) && |m.assets| < Pow256(2)
    && forall i :: 0 <= i < |m.chains| ==> ChainCountable(m.chains[i])
  }

  predicate ChainCountable(c: Chain) {
    && |c.allowed| < Pow256(2)
    && (c.deployment.BitcoinDeployment? ==> |c.deployment.challenge| < Pow256(2))
  }

  function Encode(m: Manifest): Result<Bytes, RegistryError> {
    if Countable(m) && |PutManifest(m, [])| <= MAX_MANIFEST_BYTES then Ok(PutManifest(m, []))
    else Err(BoundExceeded)
  }

  // ===== Decoding

  function GetTiming(s: Bytes): Reading<Timing> {
    var (minBlock, s) :- TakeU(4, s, NonCanonicalEncoding);
    var (maxBlock, s) :- TakeU(4, s, NonCanonicalEncoding);
    var (maxReorg, s) :- TakeU(4, s, NonCanonicalEncoding);
    var (observation, s) :- TakeU(4, s, NonCanonicalEncoding);
    var (broadcast, s) :- TakeU(4, s, NonCanonicalEncoding);
    Good(Timing(minBlock, maxBlock, maxReorg, observation, broadcast), s)
  }

  function GetFinality(s: Bytes): Reading<Finality> {
    var (confirmations, s) :- TakeU(4, s, NonCanonicalEncoding);
    var (depth, s) :- TakeU(4, s, NonCanonicalEncoding);
    Good(Finality(confirmations, depth), s)
  }

  function DomNetworkOf(tag: Byte, s: Bytes): Reading<DomNetwork> {
    if tag == 1 then Good(Mainnet, s) else if tag == 2 then Good(Testnet, s)
    else if tag == 3 then Good(Regtest, s) else Bad(NonCanonicalEncoding)
  }

  function GetDom(s: Bytes): Reading<Dom> {
    var (chainId, s) :- Take(32, s, NonCanonicalEncoding);
    var (genesis, s) :- Take(32, s, NonCanonicalEncoding);
    var (tag, s) :- TakeU8(s, NonCanonicalEncoding);
    var (network, s) :- DomNetworkOf(tag, s);
    var (magic, s) :- TakeU(4, s, NonCanonicalEncoding);
    var (protocol, s) :- TakeU(4, s, NonCanonicalEncoding);
    var (rangeProof, s) :- TakeU8(s, NonCanonicalEncoding);
    var (rules, s) :- Take(32, s, NonCanonicalEncoding);
    var (api, s) :- TakeU(4, s, NonCanonicalEncoding);
    var (timing, s) :- GetTiming(s);
    var (finality, s) :- GetFinality(s);
    var (nativeAsset, s) :- Take(32, s, NonCanonicalEncoding);
    Good(Dom(chainId, genesis, network, magic, protocol, rangeProof, rules, api, timing, finality, nativeAsset), s)
  }

  function GetTokenLock(s: Bytes): Reading<Option<TokenLock>> {
    var (tag, s) :- TakeU8(s, NonCanonicalEncoding);
    if tag == 0 then Good(None, s)
    else if tag == 1 then
      var (contract, s) :- Take(20, s, NonCanonicalEncoding);
      var (hash, s) :- Take(32, s, NonCanonicalEncoding);
      Good(Some(TokenLock(contract, hash)), s)
    else Bad(NonCanonicalEncoding)
  }

  function BitcoinNetworkOf(tag: Byte, s: Bytes): Reading<BitcoinNetwork> {
    if tag == 1 then Good(BitcoinRegtest, s) else if tag == 2 then Good(CustomSignet, s)
    else if tag == 3 then Good(PublicSignet, s) else Bad(NonCanonicalEncoding)
  }

  function MoneroNetworkOf(tag: Byte, s: Bytes): Reading<MoneroNetwork> {
    if tag == 1 then Good(MoneroMainnet, s) else if tag == 2 then Good(Stagenet, s)
    else if tag == 3 then Good(MoneroTestnet, s) else Bad(NonCanonicalEncoding)
  }

  function SolanaNetworkOf(tag: Byte, s: Bytes): Reading<SolanaNetwork> {
    if tag == 2 then Good(Devnet, s) else if tag == 3 then Good(SolanaTestnet, s)
    else if tag == 4 then Good(LocalValidator, s) else Bad(NonCanonicalEncoding)
  }

  function GetEvmKind(s: Bytes): Reading<Kind> {
    var (id, s) :- TakeU(8, s, NonCanonicalEncoding);
    var (lock, s) :- Take(20, s, NonCanonicalEncoding);
    var (code, s) :- Take(32, s, NonCanonicalEncoding);
    var (erc20, s) :- GetTokenLock(s);
    Good(Evm(id, lock, code, erc20), s)
  }

  function GetSolanaKind(s: Bytes): Reading<Kind> {
    var (tag, s) :- TakeU8(s, NonCanonicalEncoding);
    var (network, s) :- SolanaNetworkOf(tag, s);
    var (program, s) :- Take(32, s, NonCanonicalEncoding);
    var (data, s) :- Take(32, s, NonCanonicalEncoding);
    Good(Solana(network, program, data), s)
  }

  function GetBitcoinKind(s: Bytes): Reading<Kind> {
    var (tag, s) :- TakeU8(s, NonCanonicalEncoding);
    var (network, s) :- BitcoinNetworkOf(tag, s);
    Good(Bitcoin(network), s)
  }

  function GetMoneroKind(s: Bytes): Reading<Kind> {
    var (tag, s) :- TakeU8(s, NonCanonicalEncoding);
    var (network, s) :- MoneroNetworkOf(tag, s);
    Good(Monero(network), s)
  }

  function GetKind(s: Bytes): Reading<Kind> {
    var (tag, s) :- TakeU8(s, NonCanonicalEncoding);
    if tag == 1 then GetEvmKind(s)
    else if tag == 2 then GetBitcoinKind(s)
    else if tag == 3 then GetMoneroKind(s)
    else if tag == 4 then GetSolanaKind(s)
    else Bad(NonCanonicalEncoding)
  }

  function GetStart(s: Bytes): Reading<Option<nat>> {
    var (tag, s) :- TakeU8(s, NonCanonicalEncoding);
    if tag == 0 then Good(None, s)
    else if tag == 1 then
      var (v, s) :- TakeU(8, s, NonCanonicalEncoding);
      Good(Some(v), s)
    else Bad(NonCanonicalEncoding)
  }

  function GetBool(s: Bytes): Reading<bool> {
    var (tag, s) :- TakeU8(s, NonCanonicalEncoding);
    if tag == 0 then Good(false, s) else if tag == 1 then Good(true, s) else Bad(NonCanonicalEncoding)
  }

  function GetEvmDeployment(s: Bytes): Reading<Deployment> {
    var (genesis, s) :- Take(32, s, NonCanonicalEncoding);
    var (start, s) :- TakeU(8, s, NonCanonicalEncoding);
    var (erc20, s) :- GetStart(s);
    var (abi, s) :- Take(32, s, NonCanonicalEncoding);
    var (compiler, s) :- Take(32, s, NonCanonicalEncoding);
    var (source, s) :- Take(32, s, NonCanonicalEncoding);
    var (record, s) :- Take(32, s, NonCanonicalEncoding);
    var (tag, s) :- GetBool(s);
    var (page, s) :- TakeU(8, s, NonCanonicalEncoding);
    var (gas, s) :- TakeU(8, s, NonCanonicalEncoding);
    var (fee, s) :- TakeU(16, s, NonCanonicalEncoding);
    var (priority, s) :- TakeU(16, s, NonCanonicalEncoding);
    Good(EvmDeployment(genesis, start, erc20, abi, compiler, source, record, tag, page, gas, fee, priority), s)
  }

  function GetBitcoinDeployment(s: Bytes): Reading<Deployment> {
    var (genesis, s) :- Take(32, s, NonCanonicalEncoding);
    var (length, s) :- TakeU(2, s, NonCanonicalEncoding);
    if length > MAX_SIGNET_CHALLENGE_BYTES then Bad(BoundExceeded) else
    var (challenge, s) :- Take(length, s, NonCanonicalEncoding);
    var (rate, s) :- TakeU(8, s, NonCanonicalEncoding);
    var (relay, s) :- TakeU(8, s, NonCanonicalEncoding);
    Good(BitcoinDeployment(genesis, challenge, rate, relay), s)
  }

  function GetDeployment(s: Bytes): Reading<Deployment> {
    var (tag, s) :- TakeU8(s, NonCanonicalEncoding);
    if tag == 1 then GetEvmDeployment(s)
    else if tag == 2 then GetBitcoinDeployment(s)
    else if tag == 3 || tag == 4 then
      var (genesis, s) :- Take(32, s, NonCanonicalEncoding);
      var (fee, s) :- TakeU(8, s, NonCanonicalEncoding);
      Good(if tag == 3 then MoneroDeployment(genesis, fee) else SolanaDeployment(genesis, fee), s)
    else Bad(NonCanonicalEncoding)
  }

  function GetAllowed(n: nat, got: seq<Bytes>, s: Bytes): Reading<seq<Bytes>> {
    if n == 0 then Good(got, s) else
    var (a, s) :- Take(32, s, NonCanonicalEncoding);
    GetAllowed(n - 1, got + [a], s)
  }

  function GetChain(s: Bytes): Reading<Chain> {
    var (chainId, s) :- Take(32, s, NonCanonicalEncoding);
    var (kind, s) :- GetKind(s);
    var (timing, s) :- GetTiming(s);
    var (finality, s) :- GetFinality(s);
    var (nativeAsset, s) :- Take(32, s, NonCanonicalEncoding);
    var (count, s) :- TakeU(2, s, NonCanonicalEncoding);
    if count > MAX_ALLOWED_ASSETS then Bad(BoundExceeded) else
    var (allowed, s) :- GetAllowed(count, [], s);
    var (deployment, s) :- GetDeployment(s);
    Good(Chain(chainId, kind, timing, finality, nativeAsset, allowed, deployment), s)
  }

  function GetChains(n: nat, got: seq<Chain>, s: Bytes): Reading<seq<Chain>> {
    if n == 0 then Good(got, s) else
    var (c, s) :- GetChain(s);
    GetChains(n - 1, got + [c], s)
  }

  function GetRepresentation(s: Bytes): Reading<Representation> {
    var (tag, s) :- TakeU8(s, NonCanonicalEncoding);
    if tag == 1 then Good(Native, s)
    else if tag == 2 then
      var (token, s) :- Take(20, s, NonCanonicalEncoding);
      var (hash, s) :- Take(32, s, NonCanonicalEncoding);
      Good(Erc20(token, hash), s)
    else Bad(NonCanonicalEncoding)
  }

  function GetAsset(s: Bytes): Reading<Asset> {
    var (chainId, s) :- Take(32, s, NonCanonicalEncoding);
    var (assetId, s) :- Take(32, s, NonCanonicalEncoding);
    var (decimals, s) :- TakeU8(s, NonCanonicalEncoding);
    var (representation, s) :- GetRepresentation(s);
    Good(Asset(chainId, assetId, decimals, representation), s)
  }

  function GetAssets(n: nat, got: seq<Asset>, s: Bytes): Reading<seq<Asset>> {
    if n == 0 then Good(got, s) else
    var (a, s) :- GetAsset(s);
    GetAssets(n - 1, got + [a], s)
  }

  function GetHeader(s: Bytes): Reading<()> {
    var (magic, s) :- Take(8, s, NonCanonicalEncoding);
    if magic != MAGIC then Bad(NonCanonicalEncoding) else
    var (version, s) :- TakeU(2, s, NonCanonicalEncoding);
    if version != REGISTRY_VERSION then Bad(UnsupportedVersion) else
    var (reserved, s) :- TakeU(2, s, NonCanonicalEncoding);
    if reserved != 0 then Bad(NonCanonicalEncoding) else Good((), s)
  }

  function GetManifest(s: Bytes): Reading<Manifest> {
    var (_, s) :- GetHeader(s);
    var (networkId, s) :- Take(32, s, NonCanonicalEncoding);
    var (epoch, s) :- TakeU(8, s, NonCanonicalEncoding);
    var (validFrom, s) :- TakeU(8, s, NonCanonicalEncoding);
    var (expiresAt, s) :- TakeU(8, s, NonCanonicalEncoding);
    var (dom, s) :- GetDom(s);
    var (chainCount, s) :- TakeU(2, s, NonCanonicalEncoding);
    if chainCount == 0 || chainCount > MAX_CHAINS then Bad(BoundExceeded) else
    var (chains, s) :- GetChains(chainCount, [], s);
    var (assetCount, s) :- TakeU(2, s, NonCanonicalEncoding);
    if assetCount == 0 || assetCount > MAX_ASSET_BINDINGS then Bad(BoundExceeded) else
    var (bindings, s) :- GetAssets(assetCount, [], s);
    Good(Manifest(networkId, epoch, validFrom, expiresAt, dom, chains, bindings), s)
  }

  function Decode(s: Bytes): Result<Manifest, RegistryError> {
    match GetManifest(s)
    case Bad(e) => Err(e)
    case Good(m, rest) => if rest == [] then Ok(m) else Err(NonCanonicalEncoding)
  }

  // ===== Each decoder consumes exactly what its encoder wrote, whatever follows

  lemma TimingInverse(t: Timing, rest: Bytes)
    requires TimingFits(t)
    ensures GetTiming(PutTiming(t, rest)) == Good(t, rest)
  {
    hide Take, TakeU, TakeU8, ToBE, Pow256;
    ReadsBack<RegistryError>();
  }

  lemma FinalityInverse(f: Finality, rest: Bytes)
    requires FinalityFits(f)
    ensures GetFinality(PutFinality(f, rest)) == Good(f, rest)
  {
    hide Take, TakeU, TakeU8, ToBE, Pow256;
    ReadsBack<RegistryError>();
  }

  lemma DomInverse(d: Dom, rest: Bytes)
    requires DomFits(d)
    ensures GetDom(PutDom(d, rest)) == Good(d, rest)
  {
    hide Take, TakeU, TakeU8, ToBE, Pow256, GetTiming, PutTiming, GetFinality, PutFinality, TimingFits, FinalityFits;
    ReadsBack<RegistryError>();
    TimingInverse(d.timing, PutFinality(d.finality, d.nativeAsset + rest));
    FinalityInverse(d.finality, d.nativeAsset + rest);
  }

  lemma KindInverse(k: Kind, rest: Bytes)
    requires KindFits(k)
    ensures GetKind(PutKind(k, rest)) == Good(k, rest)
  {
    hide Take, TakeU, TakeU8, ToBE, Pow256;
    ReadsBack<RegistryError>();
  }

  lemma StartInverse(o: Option<nat>, rest: Bytes)
    requires o.Some? ==> o.value < Pow256(8)
    ensures GetStart(PutStart(o, rest)) == Good(o, rest)
  {
    hide Take, TakeU, TakeU8, ToBE, Pow256;
    ReadsBack<RegistryError>();
  }

  lemma EvmDeploymentInverse(d: Deployment, rest: Bytes)
    requires DeploymentFits(d) && d.EvmDeployment?
    ensures GetEvmDeployment(PutEvmDeployment(d, rest)) == Good(d, rest)
  {
    hide Take, TakeU, TakeU8, ToBE, Pow256, PutStart, GetStart;
    ReadsBack<RegistryError>();
    StartInverse(d.erc20Start, d.abi + (d.compiler + (d.source + (d.record
      + ([if d.finalizedTag then 1 else 0] + (ToBE(d.pageSize, 8) + (ToBE(d.gasLimit, 8)
      + (ToBE(d.maxFee, 16) + (ToBE(d.maxPriorityFee, 16) + rest)))))))));
  }

  lemma BitcoinDeploymentInverse(d: Deployment, rest: Bytes)
    requires DeploymentFits(d) && d.BitcoinDeployment?
    ensures GetBitcoinDeployment(PutBitcoinDeployment(d, rest)) == Good(d, rest)
  {
    Pow256Values();
    hide Take, TakeU, TakeU8, ToBE, Pow256;
    ReadsBack<RegistryError>();
  }

  lemma DeploymentInverse(d: Deployment, rest: Bytes)
    requires DeploymentFits(d)
    ensures GetDeployment(PutDeployment(d, rest)) == Good(d, rest)
  {
    hide Take, TakeU, TakeU8, ToBE, Pow256, GetEvmDeployment, GetBitcoinDeployment, PutEvmDeployment, PutBitcoinDeployment;
    ReadsBack<RegistryError>();
    if d.EvmDeployment? {
      EvmDeploymentInverse(d, rest);
    } else if d.BitcoinDeployment? {
      BitcoinDeploymentInverse(d, rest);
    }
  }

  lemma {:induction false} AllowedInverse(got: seq<Bytes>, a: seq<Bytes>, rest: Bytes)
    requires AllowedFits(a)
    ensures GetAllowed(|a|, got, PutAllowed(a, rest)) == Good(got + a, rest)
    decreases |a|
  {
    hide Take, TakeU, TakeU8;
    ReadsBack<RegistryError>();
    if a == [] {
      assert got + a == got;
    } else {
      AllowedInverse(got + [a[0]], a[1..], rest);
      assert got + [a[0]] + a[1..] == got + a;
    }
  }

  lemma ChainInverse(c: Chain, rest: Bytes)
    requires ChainFits(c)
    ensures GetChain(PutChain(c, rest)) == Good(c, rest)
  {
    Pow256Values();
    hide Take, TakeU, TakeU8, ToBE, Pow256, GetTiming, PutTiming, GetFinality, PutFinality, GetKind, PutKind,
         GetAllowed, PutAllowed, GetDeployment, PutDeployment, TimingFits, FinalityFits, KindFits, DeploymentFits;
    ReadsBack<RegistryError>();
    var s5 := PutDeployment(c.deployment, rest);
    var s4 := ToBE(|c.allowed|, 2) + PutAllowed(c.allowed, s5);
    var s3 := PutFinality(c.finality, c.nativeAsset + s4);
    KindInverse(c.kind, PutTiming(c.timing, s3));
    TimingInverse(c.timing, s3);
    FinalityInverse(c.finality, c.nativeAsset + s4);
    AllowedInverse([], c.allowed, s5);
    assert [] + c.allowed == c.allowed;
    DeploymentInverse(c.deployment, rest);
  }

  lemma {:induction false} ChainsInverse(got: seq<Chain>, cs: seq<Chain>, rest: Bytes)
    requires ChainsFit(cs)
    ensures GetChains(|cs|, got, PutChains(cs, rest)) == Good(got + cs, rest)
    decreases |cs|
  {
    hide GetChain, PutChain, ChainFits;
    if cs == [] {
      assert got + cs == got;
    } else {
      ChainInverse(cs[0], PutChains(cs[1..], rest));
      ChainsInverse(got + [cs[0]], cs[1..], rest);
      assert got + [cs[0]] + cs[1..] == got + cs;
    }
  }

  lemma AssetInverse(a: Asset, rest: Bytes)
    requires AssetFits(a)
    ensures GetAsset(PutAsset(a, rest)) == Good(a, rest)
  {
    hide Take, TakeU, TakeU8, ToBE, Pow256;
    ReadsBack<RegistryError>();
  }

  lemma {:induction false} AssetsInverse(got: seq<Asset>, bs: seq<Asset>, rest: Bytes)
    requires AssetsFit(bs)
    ensures GetAssets(|bs|, got, PutAssets(bs, rest)) == Good(got + bs, rest)
    decreases |bs|
  {
    hide GetAsset, PutAsset, AssetFits;
    if bs == [] {
      assert got + bs == got;
    } else {
      AssetInverse(bs[0], PutAssets(bs[1..], rest));
      AssetsInverse(got + [bs[0]], bs[1..], rest);
      assert got + [bs[0]] + bs[1..] == got + bs;
    }
  }

  lemma ManifestInverse(m: Manifest, rest: Bytes)
    requires ManifestFits(m)
    ensures GetManifest(PutManifest(m, rest)) == Good(m, rest)
  {
    Pow256Values();
    hide Take, TakeU, TakeU8, ToBE, Pow256, GetDom, PutDom, GetChains, PutChains, GetAssets, PutAssets, DomFits,
         ChainsFit, AssetsFit;
    ReadsBack<RegistryError>();
    var s2 := ToBE(|m.assets|, 2) + PutAssets(m.assets, rest);
    var s1 := ToBE(|m.chains|, 2) + PutChains(m.chains, s2);
    DomInverse(m.dom, s1);
    ChainsInverse([], m.chains, s2);
    assert [] + m.chains == m.chains;
    AssetsInverse([], m.assets, rest);
    assert [] + m.assets == m.assets;
  }

  // ===== Whatever a decoder accepts is what its encoder writes

  lemma TimingSound(s: Bytes)
    requires GetTiming(s).Good?
    ensures var r := GetTiming(s); TimingFits(r.value) && s == PutTiming(r.value, r.rest)
  {
    hide Take, TakeU, TakeU8, ToBE, Pow256;
    WritesBack<RegistryError>();
  }

  lemma FinalitySound(s: Bytes)
    requires GetFinality(s).Good?
    ensures var r := GetFinality(s); FinalityFits(r.value) && s == PutFinality(r.value, r.rest)
  {
    hide Take, TakeU, TakeU8, ToBE, Pow256;
    WritesBack<RegistryError>();
  }

  lemma DomSound(s: Bytes)
    requires GetDom(s).Good?
    ensures var r := GetDom(s); DomFits(r.value) && s == PutDom(r.value, r.rest)
  {
    hide Take, TakeU, TakeU8, ToBE, Pow256, GetTiming, PutTiming, GetFinality, PutFinality, TimingFits, FinalityFits;
    WritesBack<RegistryError>();
    AllTimingsSound();
  }

  lemma AllTimingsSound()
    ensures forall s: Bytes {:trigger GetTiming(s)} :: GetTiming(s).Good? ==>
              TimingFits(GetTiming(s).value) && s == PutTiming(GetTiming(s).value, GetTiming(s).rest)
    ensures forall s: Bytes {:trigger GetFinality(s)} :: GetFinality(s).Good? ==>
              FinalityFits(GetFinality(s).value) && s == PutFinality(GetFinality(s).value, GetFinality(s).rest)
  {
    hide GetTiming, GetFinality, PutTiming, PutFinality, TimingFits, FinalityFits;
    forall s: Bytes | GetTiming(s).Good?
      ensures TimingFits(GetTiming(s).value) && s == PutTiming(GetTiming(s).value, GetTiming(s).rest)
    {
      TimingSound(s);
    }
    forall s: Bytes | GetFinality(s).Good?
      ensures FinalityFits(GetFinality(s).value) && s == PutFinality(GetFinality(s).value, GetFinality(s).rest)
    {
      FinalitySound(s);
    }
  }

  lemma EvmKindSound(s: Bytes)
    requires GetEvmKind(s).Good?
    ensures var r := GetEvmKind(s); KindFits(r.value) && [1] + s == PutKind(r.value, r.rest)
  {
    hide Take, TakeU, TakeU8, ToBE, Pow256;
    WritesBack<RegistryError>();
  }

  lemma SolanaKindSound(s: Bytes)
    requires GetSolanaKind(s).Good?
    ensures var r := GetSolanaKind(s); KindFits(r.value) && [4] + s == PutKind(r.value, r.rest)
  {
    hide Take, TakeU, TakeU8, ToBE, Pow256;
    WritesBack<RegistryError>();
  }

  lemma KindSound(s: Bytes)
    requires GetKind(s).Good?
    ensures var r := GetKind(s); KindFits(r.value) && s == PutKind(r.value, r.rest)
  {
    hide Take, TakeU, TakeU8, ToBE, Pow256, GetEvmKind, GetSolanaKind;
    WritesBack<RegistryError>();
    var (tag, s1) := TakeU8(s, NonCanonicalEncoding).Extract();
    if tag == 1 {
      EvmKindSound(s1);
    } else if tag == 4 {
      SolanaKindSound(s1);
    }
  }

  lemma EvmDeploymentSound(s: Bytes)
    requires GetEvmDeployment(s).Good?
    ensures var r := GetEvmDeployment(s);
      r.value.EvmDeployment? && DeploymentFits(r.value) && s == PutEvmDeployment(r.value, r.rest)
  {
    hide Take, TakeU, TakeU8, ToBE, Pow256;
    WritesBack<RegistryError>();
  }

  lemma BitcoinDeploymentSound(s: Bytes)
    requires GetBitcoinDeployment(s).Good?
    ensures var r := GetBitcoinDeployment(s);
      r.value.BitcoinDeployment? && DeploymentFits(r.value) && s == PutBitcoinDeployment(r.value, r.rest)
  {
    hide Take, TakeU, TakeU8, ToBE, Pow256;
    WritesBack<RegistryError>();
  }

  lemma DeploymentSound(s: Bytes)
    requires GetDeployment(s).Good?
    ensures var r := GetDeployment(s); DeploymentFits(r.value) && s == PutDeployment(r.value, r.rest)
  {
    hide Take, TakeU, TakeU8, ToBE, Pow256, GetEvmDeployment, GetBitcoinDeployment, PutEvmDeployment, PutBitcoinDeployment;
    WritesBack<RegistryError>();
    var (tag, s1) := TakeU8(s, NonCanonicalEncoding).Extract();
    if tag == 1 {
      EvmDeploymentSound(s1);
    } else if tag == 2 {
      BitcoinDeploymentSound(s1);
    }
  }

  lemma {:induction false} AllowedSound(n: nat, got: seq<Bytes>, s: Bytes) returns (tail: seq<Bytes>)
    requires GetAllowed(n, got, s).Good?
    ensures var r := GetAllowed(n, got, s);
      |tail| == n && r.value == got + tail && AllowedFits(tail) && s == PutAllowed(tail, r.rest)
    decreases n
  {
    hide Take, TakeU, TakeU8;
    WritesBack<RegistryError>();
    if n == 0 {
      tail := [];
      assert got + tail == got;
    } else {
      var (a, s1) := Take(32, s, NonCanonicalEncoding).Extract();
      var tail' := AllowedSound(n - 1, got + [a], s1);
      tail := [a] + tail';
      assert got + [a] + tail' == got + tail;
      assert tail[1..] == tail';
    }
  }

  lemma ChainSound(s: Bytes)
    requires GetChain(s).Good?
    ensures var r := GetChain(s); ChainFits(r.value) && s == PutChain(r.value, r.rest)
  {
    hide Take, TakeU, TakeU8, ToBE, Pow256, GetTiming, PutTiming, GetFinality, PutFinality, GetKind, PutKind,
         GetAllowed, PutAllowed, GetDeployment, PutDeployment, TimingFits, FinalityFits, KindFits, DeploymentFits,
         AllowedFits;
    WritesBack<RegistryError>();
    AllTimingsSound();
    var (chainId, s1) := Take(32, s, NonCanonicalEncoding).Extract();
    KindSound(s1);
    var (kind, s2) := GetKind(s1).Extract();
    var (timing, s3) := GetTiming(s2).Extract();
    var (finality, s4) := GetFinality(s3).Extract();
    var (nativeAsset, s5) := Take(32, s4, NonCanonicalEncoding).Extract();
    var (count, s6) := TakeU(2, s5, NonCanonicalEncoding).Extract();
    var allowed := AllowedSound(count, [], s6);
    assert [] + allowed == allowed;
    DeploymentSound(GetAllowed(count, [], s6).rest);
  }

  lemma {:induction false} ChainsSound(n: nat, got: seq<Chain>, s: Bytes) returns (tail: seq<Chain>)
    requires GetChains(n, got, s).Good?
    ensures var r := GetChains(n, got, s);
      |tail| == n && r.value == got + tail && ChainsFit(tail) && s == PutChains(tail, r.rest)
    decreases n
  {
    hide GetChain, PutChain, ChainFits;
    if n == 0 {
      tail := [];
      assert got + tail == got;
    } else {
      ChainSound(s);
      var (c, s1) := GetChain(s).Extract();
      var tail' := ChainsSound(n - 1, got + [c], s1);
      tail := [c] + tail';
      assert got + [c] + tail' == got + tail;
      assert tail[1..] == tail';
    }
  }

  lemma AssetSound(s: Bytes)
    requires GetAsset(s).Good?
    ensures var r := GetAsset(s); AssetFits(r.value) && s == PutAsset(r.value, r.rest)
  {
    hide Take, TakeU, TakeU8, ToBE, Pow256;
    WritesBack<RegistryError>();
  }

  lemma {:induction false} AssetsSound(n: nat, got: seq<Asset>, s: Bytes) returns (tail: seq<Asset>)
    requires GetAssets(n, got, s).Good?
    ensures var r := GetAssets(n, got, s);
      |tail| == n && r.value == got + tail && AssetsFit(tail) && s == PutAssets(tail, r.rest)
    decreases n
  {
    hide GetAsset, PutAsset, AssetFits;
    if n == 0 {
      tail := [];
      assert got + tail == got;
    } else {
      AssetSound(s);
      var (a, s1) := GetAsset(s).Extract();
      var tail' := AssetsSound(n - 1, got + [a], s1);
      tail := [a] + tail';
      assert got + [a] + tail' == got + tail;
      assert tail[1..] == tail';
    }
  }

  lemma ManifestSound(s: Bytes)
    requires GetManifest(s).Good?
    ensures var r := GetManifest(s); ManifestFits(r.value) && s == PutManifest(r.value, r.rest)
  {
    hide Take, TakeU, TakeU8, ToBE, Pow256, GetDom, PutDom, GetChains, PutChains, GetAssets, PutAssets, DomFits,
         ChainsFit, AssetsFit;
    WritesBack<RegistryError>();
    var (_, s0) := GetHeader(s).Extract();
    var (networkId, s1) := Take(32, s0, NonCanonicalEncoding).Extract();
    var (epoch, s2) := TakeU(8, s1, NonCanonicalEncoding).Extract();
    var (validFrom, s3) := TakeU(8, s2, NonCanonicalEncoding).Extract();
    var (expiresAt, s4) := TakeU(8, s3, NonCanonicalEncoding).Extract();
    DomSound(s4);
    var (dom, s5) := GetDom(s4).Extract();
    var (chainCount, s6) := TakeU(2, s5, NonCanonicalEncoding).Extract();
    var chains := ChainsSound(chainCount, [], s6);
    assert [] + chains == chains;
    var s7 := GetChains(chainCount, [], s6).rest;
    var (assetCount, s8) := TakeU(2, s7, NonCanonicalEncoding).Extract();
    var bindings := AssetsSound(assetCount, [], s8);
    assert [] + bindings == bindings;
  }

  // ===== Size of what fits

  lemma KindSize(k: Kind, rest: Bytes)
    requires KindFits(k)
    ensures |PutKind(k, rest)| <= 114 + |rest|
  {
  }

  lemma DeploymentSize(d: Deployment, rest: Bytes)
    requires DeploymentFits(d)
    ensures |PutDeployment(d, rest)| <= 571 + |rest|
  {
  }

  lemma {:induction false} AllowedSize(a: seq<Bytes>, rest: Bytes)
    requires AllowedFits(a)
    ensures |PutAllowed(a, rest)| == 32 * |a| + |rest|
    decreases |a|
  {
    if a != [] {
      AllowedSize(a[1..], rest);
    }
  }

  lemma ChainSize(c: Chain, rest: Bytes)
    requires ChainFits(c)
    ensures |PutChain(c, rest)| <= 2827 + |rest|
  {
    hide PutKind, PutAllowed, PutDeployment, KindFits, DeploymentFits, AllowedFits;
    var s5 := PutDeployment(c.deployment, rest);
    var s4 := ToBE(|c.allowed|, 2) + PutAllowed(c.allowed, s5);
    DeploymentSize(c.deployment, rest);
    AllowedSize(c.allowed, s5);
    KindSize(c.kind, PutTiming(c.timing, PutFinality(c.finality, c.nativeAsset + s4)));
  }

  lemma {:induction false} ChainsSize(cs: seq<Chain>, rest: Bytes)
    requires ChainsFit(cs)
    ensures |PutChains(cs, rest)| <= 2827 * |cs| + |rest|
    decreases |cs|
  {
    hide PutChain, ChainFits;
    if cs != [] {
      ChainSize(cs[0], PutChains(cs[1..], rest));
      ChainsSize(cs[1..], rest);
    }
  }

  lemma {:induction false} AssetsSize(bs: seq<Asset>, rest: Bytes)
    requires AssetsFit(bs)
    ensures |PutAssets(bs, rest)| <= 118 * |bs| + |rest|
    decreases |bs|
  {
    if bs != [] {
      AssetsSize(bs[1..], rest);
    }
  }

  /** No manifest the decoder accepts comes near the size limit. */
  lemma ManifestSize(m: Manifest)
    requires ManifestFits(m)
    ensures |PutManifest(m, [])| <= 120_914 <= MAX_MANIFEST_BYTES
  {
    hide PutChains, PutAssets, ChainsFit, AssetsFit;
    var s2 := ToBE(|m.assets|, 2) + PutAssets(m.assets, []);
    AssetsSize(m.assets, []);
    ChainsSize(m.chains, s2);
  }

  // ===== The codec is a bijection

  lemma FitsCountable(m: Manifest)
    requires ManifestFits(m)
    ensures Countable(m)
  {
    Pow256Values();
    hide Pow256;
    forall i | 0 <= i < |m.chains| ensures ChainCountable(m.chains[i]) {
      assert ChainFits(m.chains[i]);
    }
  }

  /** Encoding then decoding returns the manifest, exactly for the manifests that fit. */
  lemma DecodeEncode(m: Manifest)
    ensures ManifestFits(m) ==> Encode(m).Ok?
    ensures Encode(m).Ok? ==> (Decode(Encode(m).value) == Ok(m) <==> ManifestFits(m))
  {
    hide GetManifest, PutManifest, Countable, ManifestFits;
    if ManifestFits(m) {
      FitsCountable(m);
      ManifestSize(m);
      ManifestInverse(m, []);
    }
    if Encode(m).Ok? && Decode(Encode(m).value) == Ok(m) {
      ManifestSound(Encode(m).value);
    }
  }

  /** Every accepted string is the encoding of the manifest it decodes to. */
  lemma EncodeDecode(s: Bytes)
    requires Decode(s).Ok?
    ensures var m := Decode(s).value; ManifestFits(m) && Encode(m) == Ok(s)
  {
    hide GetManifest, PutManifest, Countable, ManifestFits;
    ManifestSound(s);
    var m := Decode(s).value;
    FitsCountable(m);
    ManifestSize(m);
  }
}
