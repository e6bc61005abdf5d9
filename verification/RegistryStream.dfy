/**
 The registry codec as crates/deployment-registry/src/codec.rs runs it: encoders
 that push onto a growing buffer, decoders that advance a cursor.
 */
module RegistryStream {
  import opened Wire
  import opened RegistryCodec

  // ===== Encoding

  method EncodeTiming(w: Buffer, t: Timing, ghost todo: Bytes)
    modifies w
    ensures w.out + todo == old(w.out) + PutTiming(t, todo)
  {
    hide ToBE;
    ghost var t4 := ToBE(t.broadcast, 4) + todo;
    ghost var t3 := ToBE(t.observation, 4) + t4;
    ghost var t2 := ToBE(t.maxReorg, 4) + t3;
    ghost var t1 := ToBE(t.maxBlock, 4) + t2;
    w.Extend(ToBE(t.minBlock, 4), t1);
    w.Extend(ToBE(t.maxBlock, 4), t2);
    w.Extend(ToBE(t.maxReorg, 4), t3);
    w.Extend(ToBE(t.observation, 4), t4);
    w.Extend(ToBE(t.broadcast, 4), todo);
  }

  method EncodeFinality(w: Buffer, f: Finality, ghost todo: Bytes)
    modifies w
    ensures w.out + todo == old(w.out) + PutFinality(f, todo)
  {
    hide ToBE;
    ghost var t1 := ToBE(f.maxReorgDepth, 4) + todo;
    w.Extend(ToBE(f.minConfirmations, 4), t1);
    w.Extend(ToBE(f.maxReorgDepth, 4), todo);
  }

  method EncodeDom(w: Buffer, d: Dom, ghost todo: Bytes)
    modifies w
    ensures w.out + todo == old(w.out) + PutDom(d, todo)
  {
    hide ToBE, PutTiming, PutFinality;
    ghost var t10 := d.nativeAsset + todo;
    ghost var t9 := PutFinality(d.finality, t10);
    ghost var t8 := PutTiming(d.timing, t9);
    ghost var t7 := ToBE(d.scriptlessApi, 4) + t8;
    ghost var t6 := d.consensusRules + t7;
    ghost var t5 := [d.rangeProof] + t6;
    ghost var t4 := ToBE(d.protocol, 4) + t5;
    ghost var t3 := ToBE(d.magic, 4) + t4;
    ghost var t2 := [DomTag(d.network)] + t3;
    ghost var t1 := d.genesis + t2;
    w.Extend(d.chainId, t1);
    w.Extend(d.genesis, t2);
    w.Extend([DomTag(d.network)], t3);
    w.Extend(ToBE(d.magic, 4), t4);
    w.Extend(ToBE(d.protocol, 4), t5);
    w.Extend([d.rangeProof], t6);
    w.Extend(d.consensusRules, t7);
    w.Extend(ToBE(d.scriptlessApi, 4), t8);
    EncodeTiming(w, d.timing, t9);
    EncodeFinality(w, d.finality, t10);
    w.Extend(d.nativeAsset, todo);
  }

  method EncodeTokenLock(w: Buffer, o: Option<TokenLock>, ghost todo: Bytes)
    modifies w
    ensures w.out + todo == old(w.out) + PutTokenLock(o, todo)
  {
    match o {
      case None =>
        w.Extend([0], todo);
      case Some(t) =>
        ghost var t2 := t.codeHash + todo;
        ghost var t1 := t.contract + t2;
        w.Extend([1], t1);
        w.Extend(t.contract, t2);
        w.Extend(t.codeHash, todo);
    }
  }

  method EncodeKind(w: Buffer, k: Kind, ghost todo: Bytes)
    modifies w
    ensures w.out + todo == old(w.out) + PutKind(k, todo)
  {
    hide ToBE, PutTokenLock;
    match k {
      case Evm(id, lock, code, erc20) =>
        ghost var t4 := PutTokenLock(erc20, todo);
        ghost var t3 := code + t4;
        ghost var t2 := lock + t3;
        ghost var t1 := ToBE(id, 8) + t2;
        w.Extend([1], t1);
        w.Extend(ToBE(id, 8), t2);
        w.Extend(lock, t3);
        w.Extend(code, t4);
        EncodeTokenLock(w, erc20, todo);
      case Bitcoin(n) =>
        ghost var t1 := [BitcoinTag(n)] + todo;
        w.Extend([2], t1);
        w.Extend([BitcoinTag(n)], todo);
      case Monero(n) =>
        ghost var t1 := [MoneroTag(n)] + todo;
        w.Extend([3], t1);
        w.Extend([MoneroTag(n)], todo);
      case Solana(n, program, data) =>
        ghost var t3 := data + todo;
        ghost var t2 := program + t3;
        ghost var t1 := [SolanaTag(n)] + t2;
        w.Extend([4], t1);
        w.Extend([SolanaTag(n)], t2);
        w.Extend(program, t3);
        w.Extend(data, todo);
    }
  }

  method EncodeStart(w: Buffer, o: Option<nat>, ghost todo: Bytes)
    modifies w
    ensures w.out + todo == old(w.out) + PutStart(o, todo)
  {
    hide ToBE;
    match o {
      case None =>
        w.Extend([0], todo);
      case Some(v) =>
        ghost var t1 := ToBE(v, 8) + todo;
        w.Extend([1], t1);
        w.Extend(ToBE(v, 8), todo);
    }
  }

  method EncodeEvmDeployment(w: Buffer, d: Deployment, ghost todo: Bytes)
    requires d.EvmDeployment?
    modifies w
    ensures w.out + todo == old(w.out) + PutEvmDeployment(d, todo)
  {
    hide ToBE, PutStart;
    ghost var t11 := ToBE(d.maxPriorityFee, 16) + todo;
    ghost var t10 := ToBE(d.maxFee, 16) + t11;
    ghost var t9 := ToBE(d.gasLimit, 8) + t10;
    ghost var t8 := ToBE(d.pageSize, 8) + t9;
    ghost var t7 := [if d.finalizedTag then 1 else 0] + t8;
    ghost var t6 := d.record + t7;
    ghost var t5 := d.source + t6;
    ghost var t4 := d.compiler + t5;
    ghost var t3 := d.abi + t4;
    ghost var t2 := PutStart(d.erc20Start, t3);
    ghost var t1 := ToBE(d.nativeStart, 8) + t2;
    w.Extend(d.genesis, t1);
    w.Extend(ToBE(d.nativeStart, 8), t2);
    EncodeStart(w, d.erc20Start, t3);
    w.Extend(d.abi, t4);
    w.Extend(d.compiler, t5);
    w.Extend(d.source, t6);
    w.Extend(d.record, t7);
    w.Extend([if d.finalizedTag then 1 else 0], t8);
    w.Extend(ToBE(d.pageSize, 8), t9);
    w.Extend(ToBE(d.gasLimit, 8), t10);
    w.Extend(ToBE(d.maxFee, 16), t11);
    w.Extend(ToBE(d.maxPriorityFee, 16), todo);
  }

  method EncodeBitcoinDeployment(w: Buffer, d: Deployment, ghost todo: Bytes) returns (r: Result<(), RegistryError>)
    requires d.BitcoinDeployment?
    modifies w
    ensures r == if |d.challenge| >= Pow256(2) then Err(BoundExceeded) else Ok(())
    ensures r.Ok? ==> w.out + todo == old(w.out) + PutBitcoinDeployment(d, todo)
  {
    hide ToBE;
    if |d.challenge| >= Pow256(2) {
      return Err(BoundExceeded);
    }
    ghost var t4 := ToBE(d.minRelayFee, 8) + todo;
    ghost var t3 := ToBE(d.maxFeeRate, 8) + t4;
    ghost var t2 := d.challenge + t3;
    ghost var t1 := ToBE(|d.challenge|, 2) + t2;
    w.Extend(d.genesis, t1);
    w.Extend(ToBE(|d.challenge|, 2), t2);
    w.Extend(d.challenge, t3);
    w.Extend(ToBE(d.maxFeeRate, 8), t4);
    w.Extend(ToBE(d.minRelayFee, 8), todo);
    r := Ok(());
  }

  method EncodeDeployment(w: Buffer, d: Deployment, ghost todo: Bytes) returns (r: Result<(), RegistryError>)
    modifies w
    ensures r == if d.BitcoinDeployment? && |d.challenge| >= Pow256(2) then Err(BoundExceeded) else Ok(())
    ensures r.Ok? ==> w.out + todo == old(w.out) + PutDeployment(d, todo)
  {
    hide ToBE, PutEvmDeployment, PutBitcoinDeployment;
    r := Ok(());
    match d {
      case EvmDeployment(_, _, _, _, _, _, _, _, _, _, _, _) =>
        w.Extend([1], PutEvmDeployment(d, todo));
        EncodeEvmDeployment(w, d, todo);
      case BitcoinDeployment(_, _, _, _) =>
        w.Extend([2], PutBitcoinDeployment(d, todo));
        r := EncodeBitcoinDeployment(w, d, todo);
      case MoneroDeployment(genesis, fee) =>
        ghost var t2 := ToBE(fee, 8) + todo;
        ghost var t1 := genesis + t2;
        w.Extend([3], t1);
        w.Extend(genesis, t2);
        w.Extend(ToBE(fee, 8), todo);
      case SolanaDeployment(genesis, fee) =>
        ghost var t2 := ToBE(fee, 8) + todo;
        ghost var t1 := genesis + t2;
        w.Extend([4], t1);
        w.Extend(genesis, t2);
        w.Extend(ToBE(fee, 8), todo);
    }
  }

  method EncodeAllowed(w: Buffer, assets: seq<Bytes>, ghost todo: Bytes)
    modifies w
    ensures w.out + todo == old(w.out) + PutAllowed(assets, todo)
  {
    var i := 0;
    assert assets[0..] == assets;
    while i < |assets|
      invariant 0 <= i <= |assets|
      invariant w.out + PutAllowed(assets[i..], todo) == old(w.out) + PutAllowed(assets, todo)
    {
      assert assets[i..][1..] == assets[i + 1..];
      w.Extend(assets[i], PutAllowed(assets[i + 1..], todo));
      i := i + 1;
    }
  }

  method EncodeChain(w: Buffer, c: Chain, ghost todo: Bytes) returns (r: Result<(), RegistryError>)
    modifies w
    ensures r.Ok? <==> ChainCountable(c)
    ensures r.Err? ==> r.error == BoundExceeded
    ensures r.Ok? ==> w.out + todo == old(w.out) + PutChain(c, todo)
  {
    hide ToBE, PutTiming, PutFinality, PutKind, PutAllowed, PutDeployment, Pow256;
    ghost var t6 := PutDeployment(c.deployment, todo);
    ghost var t5 := PutAllowed(c.allowed, t6);
    ghost var t4 := ToBE(|c.allowed|, 2) + t5;
    ghost var t3 := c.nativeAsset + t4;
    ghost var t2 := PutFinality(c.finality, t3);
    ghost var t1 := PutTiming(c.timing, t2);
    w.Extend(c.chainId, PutKind(c.kind, t1));
    EncodeKind(w, c.kind, t1);
    EncodeTiming(w, c.timing, t2);
    EncodeFinality(w, c.finality, t3);
    w.Extend(c.nativeAsset, t4);
    if |c.allowed| >= Pow256(2) {
      return Err(BoundExceeded);
    }
    w.Extend(ToBE(|c.allowed|, 2), t5);
    EncodeAllowed(w, c.allowed, t6);
    r := EncodeDeployment(w, c.deployment, todo);
  }

  method EncodeChains(w: Buffer, chains: seq<Chain>, ghost todo: Bytes) returns (r: Result<(), RegistryError>)
    modifies w
    ensures r.Ok? <==> forall i :: 0 <= i < |chains| ==> ChainCountable(chains[i])
    ensures r.Err? ==> r.error == BoundExceeded
    ensures r.Ok? ==> w.out + todo == old(w.out) + PutChains(chains, todo)
  {
    hide PutChain, ChainCountable;
    var i := 0;
    assert chains[0..] == chains;
    while i < |chains|
      invariant 0 <= i <= |chains|
      invariant forall j :: 0 <= j < i ==> ChainCountable(chains[j])
      invariant w.out + PutChains(chains[i..], todo) == old(w.out) + PutChains(chains, todo)
    {
      assert chains[i..][1..] == chains[i + 1..];
      var e := EncodeChain(w, chains[i], PutChains(chains[i + 1..], todo));
      if e.Err? {
        return e;
      }
      i := i + 1;
    }
    r := Ok(());
  }

  method EncodeAsset(w: Buffer, a: Asset, ghost todo: Bytes)
    modifies w
    ensures w.out + todo == old(w.out) + PutAsset(a, todo)
  {
    hide PutRepresentation;
    ghost var t3 := PutRepresentation(a.representation, todo);
    w.Extend(a.chainId, a.assetId + ([a.decimals] + t3));
    w.Extend(a.assetId, [a.decimals] + t3);
    w.Extend([a.decimals], t3);
    EncodeRepresentation(w, a.representation, todo);
  }

  method EncodeRepresentation(w: Buffer, p: Representation, ghost todo: Bytes)
    modifies w
    ensures w.out + todo == old(w.out) + PutRepresentation(p, todo)
  {
    match p {
      case Native =>
        w.Extend([1], todo);
      case Erc20(token, hash) =>
        ghost var t2 := hash + todo;
        ghost var t1 := token + t2;
        w.Extend([2], t1);
        w.Extend(token, t2);
        w.Extend(hash, todo);
    }
  }

  method EncodeAssets(w: Buffer, bindings: seq<Asset>, ghost todo: Bytes)
    modifies w
    ensures w.out + todo == old(w.out) + PutAssets(bindings, todo)
  {
    hide PutAsset;
    var i := 0;
    assert bindings[0..] == bindings;
    while i < |bindings|
      invariant 0 <= i <= |bindings|
      invariant w.out + PutAssets(bindings[i..], todo) == old(w.out) + PutAssets(bindings, todo)
    {
      assert bindings[i..][1..] == bindings[i + 1..];
      EncodeAsset(w, bindings[i], PutAssets(bindings[i + 1..], todo));
      i := i + 1;
    }
  }

  method EncodeManifest(m: Manifest) returns (r: Result<Bytes, RegistryError>)
    ensures r == Encode(m)
  {
    hide ToBE, PutDom, PutChains, PutAssets, ChainCountable, Pow256;
    var w := new Buffer();
    ghost var t10 := PutAssets(m.assets, []);
    ghost var t9 := ToBE(|m.assets|, 2) + t10;
    ghost var t8 := PutChains(m.chains, t9);
    ghost var t7 := ToBE(|m.chains|, 2) + t8;
    ghost var t6 := PutDom(m.dom, t7);
    ghost var t5 := ToBE(m.expiresAt, 8) + t6;
    ghost var t4 := ToBE(m.validFrom, 8) + t5;
    ghost var t3 := ToBE(m.epoch, 8) + t4;
    ghost var t2 := m.networkId + t3;
    ghost var t1 := ToBE(0, 2) + t2;
    w.Extend(MAGIC, ToBE(REGISTRY_VERSION, 2) + t1);
    w.Extend(ToBE(REGISTRY_VERSION, 2), t1);
    w.Extend(ToBE(0, 2), t2);
    w.Extend(m.networkId, t3);
    w.Extend(ToBE(m.epoch, 8), t4);
    w.Extend(ToBE(m.validFrom, 8), t5);
    w.Extend(ToBE(m.expiresAt, 8), t6);
    EncodeDom(w, m.dom, t7);
    if |m.chains| >= Pow256(2) {
      return Err(BoundExceeded);
    }
    w.Extend(ToBE(|m.chains|, 2), t8);
    var e := EncodeChains(w, m.chains, t9);
    if e.Err? {
      return Err(BoundExceeded);
    }
    if |m.assets| >= Pow256(2) {
      return Err(BoundExceeded);
    }
    w.Extend(ToBE(|m.assets|, 2), t10);
    EncodeAssets(w, m.assets, []);
    assert w.out == w.out + [] == [] + PutManifest(m, []) == PutManifest(m, []);
    if |w.out| > MAX_MANIFEST_BYTES {
      return Err(BoundExceeded);
    }
    r := Ok(w.out);
  }

  // ===== Decoding

  method DecodeTiming(c: Cursor) returns (r: Result<Timing, RegistryError>)
    requires c.Valid()
    modifies c
    ensures c.Valid() && Follows(r, c.Rest(), GetTiming(old(c.Rest())))
  {
    hide TakeU;
    var minBlock :- c.ReadU(4, NonCanonicalEncoding);
    var maxBlock :- c.ReadU(4, NonCanonicalEncoding);
    var maxReorg :- c.ReadU(4, NonCanonicalEncoding);
    var observation :- c.ReadU(4, NonCanonicalEncoding);
    var broadcast :- c.ReadU(4, NonCanonicalEncoding);
    r := Ok(Timing(minBlock, maxBlock, maxReorg, observation, broadcast));
  }

  method DecodeFinality(c: Cursor) returns (r: Result<Finality, RegistryError>)
    requires c.Valid()
    modifies c
    ensures c.Valid() && Follows(r, c.Rest(), GetFinality(old(c.Rest())))
  {
    hide TakeU;
    var confirmations :- c.ReadU(4, NonCanonicalEncoding);
    var depth :- c.ReadU(4, NonCanonicalEncoding);
    r := Ok(Finality(confirmations, depth));
  }

  method DecodeDom(c: Cursor) returns (r: Result<Dom, RegistryError>)
    requires c.Valid()
    modifies c
    ensures c.Valid() && Follows(r, c.Rest(), GetDom(old(c.Rest())))
  {
    hide TakeU, TakeU8, Take, GetTiming, GetFinality;
    var chainId :- c.TakeBytes(32, NonCanonicalEncoding);
    var genesis :- c.TakeBytes(32, NonCanonicalEncoding);
    var tag :- c.ReadU8(NonCanonicalEncoding);
    var network;
    match tag {
      case 1 => network := Mainnet;
      case 2 => network := Testnet;
      case 3 => network := Regtest;
      case _ => return Err(NonCanonicalEncoding);
    }
    var magic :- c.ReadU(4, NonCanonicalEncoding);
    var protocol :- c.ReadU(4, NonCanonicalEncoding);
    var rangeProof :- c.ReadU8(NonCanonicalEncoding);
    var rules :- c.TakeBytes(32, NonCanonicalEncoding);
    var api :- c.ReadU(4, NonCanonicalEncoding);
    var timing :- DecodeTiming(c);
    var finality :- DecodeFinality(c);
    var nativeAsset :- c.TakeBytes(32, NonCanonicalEncoding);
    r := Ok(Dom(chainId, genesis, network, magic, protocol, rangeProof, rules, api, timing, finality, nativeAsset));
  }

  method DecodeEvmKind(c: Cursor) returns (r: Result<Kind, RegistryError>)
    requires c.Valid()
    modifies c
    ensures c.Valid() && Follows(r, c.Rest(), GetEvmKind(old(c.Rest())))
  {
    hide TakeU, TakeU8, Take;
    var id :- c.ReadU(8, NonCanonicalEncoding);
    var lock :- c.TakeBytes(20, NonCanonicalEncoding);
    var code :- c.TakeBytes(32, NonCanonicalEncoding);
    var present :- c.ReadU8(NonCanonicalEncoding);
    var erc20 := None;
    if present == 1 {
      var contract :- c.TakeBytes(20, NonCanonicalEncoding);
      var hash :- c.TakeBytes(32, NonCanonicalEncoding);
      erc20 := Some(TokenLock(contract, hash));
    } else if present != 0 {
      return Err(NonCanonicalEncoding);
    }
    r := Ok(Evm(id, lock, code, erc20));
  }

  method DecodeKind(c: Cursor) returns (r: Result<Kind, RegistryError>)
    requires c.Valid()
    modifies c
    ensures c.Valid() && Follows(r, c.Rest(), GetKind(old(c.Rest())))
  {
    hide TakeU, TakeU8, Take, GetEvmKind;
    var tag :- c.ReadU8(NonCanonicalEncoding);
    match tag {
      case 1 =>
        r := DecodeEvmKind(c);
      case 2 =>
        var n :- c.ReadU8(NonCanonicalEncoding);
        match n {
          case 1 => r := Ok(Bitcoin(BitcoinRegtest));
          case 2 => r := Ok(Bitcoin(CustomSignet));
          case 3 => r := Ok(Bitcoin(PublicSignet));
          case _ => r := Err(NonCanonicalEncoding);
        }
      case 3 =>
        var n :- c.ReadU8(NonCanonicalEncoding);
        match n {
          case 1 => r := Ok(Monero(MoneroMainnet));
          case 2 => r := Ok(Monero(Stagenet));
          case 3 => r := Ok(Monero(MoneroTestnet));
          case _ => r := Err(NonCanonicalEncoding);
        }
      case 4 =>
        var n :- c.ReadU8(NonCanonicalEncoding);
        var network;
        match n {
          case 2 => network := Devnet;
          case 3 => network := SolanaTestnet;
          case 4 => network := LocalValidator;
          case _ => return Err(NonCanonicalEncoding);
        }
        var program :- c.TakeBytes(32, NonCanonicalEncoding);
        var data :- c.TakeBytes(32, NonCanonicalEncoding);
        r := Ok(Solana(network, program, data));
      case _ =>
        r := Err(NonCanonicalEncoding);
    }
  }

  method DecodeEvmDeployment(c: Cursor) returns (r: Result<Deployment, RegistryError>)
    requires c.Valid()
    modifies c
    ensures c.Valid() && Follows(r, c.Rest(), GetEvmDeployment(old(c.Rest())))
  {
    hide TakeU, TakeU8, Take;
    var genesis :- c.TakeBytes(32, NonCanonicalEncoding);
    var start :- c.ReadU(8, NonCanonicalEncoding);
    var present :- c.ReadU8(NonCanonicalEncoding);
    var erc20: Option<nat> := None;
    if present == 1 {
      var v :- c.ReadU(8, NonCanonicalEncoding);
      erc20 := Some(v);
    } else if present != 0 {
      return Err(NonCanonicalEncoding);
    }
    var abi :- c.TakeBytes(32, NonCanonicalEncoding);
    var compiler :- c.TakeBytes(32, NonCanonicalEncoding);
    var source :- c.TakeBytes(32, NonCanonicalEncoding);
    var record :- c.TakeBytes(32, NonCanonicalEncoding);
    var flag :- c.ReadU8(NonCanonicalEncoding);
    if flag > 1 {
      return Err(NonCanonicalEncoding);
    }
    var page :- c.ReadU(8, NonCanonicalEncoding);
    var gas :- c.ReadU(8, NonCanonicalEncoding);
    var fee :- c.ReadU(16, NonCanonicalEncoding);
    var priority :- c.ReadU(16, NonCanonicalEncoding);
    r := Ok(EvmDeployment(genesis, start, erc20, abi, compiler, source, record, flag == 1, page, gas, fee, priority));
  }

  method DecodeBitcoinDeployment(c: Cursor) returns (r: Result<Deployment, RegistryError>)
    requires c.Valid()
    modifies c
    ensures c.Valid() && Follows(r, c.Rest(), GetBitcoinDeployment(old(c.Rest())))
  {
    hide TakeU, TakeU8, Take;
    var genesis :- c.TakeBytes(32, NonCanonicalEncoding);
    var length :- c.ReadU(2, NonCanonicalEncoding);
    if length > MAX_SIGNET_CHALLENGE_BYTES {
      return Err(BoundExceeded);
    }
    var challenge :- c.TakeBytes(length, NonCanonicalEncoding);
    var rate :- c.ReadU(8, NonCanonicalEncoding);
    var relay :- c.ReadU(8, NonCanonicalEncoding);
    r := Ok(BitcoinDeployment(genesis, challenge, rate, relay));
  }

  method DecodeDeployment(c: Cursor) returns (r: Result<Deployment, RegistryError>)
    requires c.Valid()
    modifies c
    ensures c.Valid() && Follows(r, c.Rest(), GetDeployment(old(c.Rest())))
  {
    hide TakeU, TakeU8, Take, GetEvmDeployment, GetBitcoinDeployment;
    var tag :- c.ReadU8(NonCanonicalEncoding);
    match tag {
      case 1 =>
        r := DecodeEvmDeployment(c);
      case 2 =>
        r := DecodeBitcoinDeployment(c);
      case 3 =>
        var genesis :- c.TakeBytes(32, NonCanonicalEncoding);
        var fee :- c.ReadU(8, NonCanonicalEncoding);
        r := Ok(MoneroDeployment(genesis, fee));
      case 4 =>
        var genesis :- c.TakeBytes(32, NonCanonicalEncoding);
        var fee :- c.ReadU(8, NonCanonicalEncoding);
        r := Ok(SolanaDeployment(genesis, fee));
      case _ =>
        r := Err(NonCanonicalEncoding);
    }
  }

  method DecodeAllowed(c: Cursor, count: nat) returns (r: Result<seq<Bytes>, RegistryError>)
    requires c.Valid()
    modifies c
    ensures c.Valid() && Follows(r, c.Rest(), GetAllowed(count, [], old(c.Rest())))
  {
    hide Take;
    var assets := [];
    for i := 0 to count
      invariant c.Valid()
      invariant GetAllowed(count, [], old(c.Rest())) == GetAllowed(count - i, assets, c.Rest())
    {
      var a :- c.TakeBytes(32, NonCanonicalEncoding);
      assets := assets + [a];
    }
    r := Ok(assets);
  }

  method DecodeChain(c: Cursor) returns (r: Result<Chain, RegistryError>)
    requires c.Valid()
    modifies c
    ensures c.Valid() && Follows(r, c.Rest(), GetChain(old(c.Rest())))
  {
    hide TakeU, TakeU8, Take, GetKind, GetTiming, GetFinality, GetAllowed, GetDeployment;
    var chainId :- c.TakeBytes(32, NonCanonicalEncoding);
    var kind :- DecodeKind(c);
    var timing :- DecodeTiming(c);
    var finality :- DecodeFinality(c);
    var nativeAsset :- c.TakeBytes(32, NonCanonicalEncoding);
    var count :- c.ReadU(2, NonCanonicalEncoding);
    if count > MAX_ALLOWED_ASSETS {
      return Err(BoundExceeded);
    }
    var allowed :- DecodeAllowed(c, count);
    var deployment :- DecodeDeployment(c);
    r := Ok(Chain(chainId, kind, timing, finality, nativeAsset, allowed, deployment));
  }

  method DecodeChains(c: Cursor, count: nat) returns (r: Result<seq<Chain>, RegistryError>)
    requires c.Valid()
    modifies c
    ensures c.Valid() && Follows(r, c.Rest(), GetChains(count, [], old(c.Rest())))
  {
    hide GetChain;
    var chains := [];
    for i := 0 to count
      invariant c.Valid()
      invariant GetChains(count, [], old(c.Rest())) == GetChains(count - i, chains, c.Rest())
    {
      var chain :- DecodeChain(c);
      chains := chains + [chain];
    }
    r := Ok(chains);
  }

  method DecodeAsset(c: Cursor) returns (r: Result<Asset, RegistryError>)
    requires c.Valid()
    modifies c
    ensures c.Valid() && Follows(r, c.Rest(), GetAsset(old(c.Rest())))
  {
    hide TakeU, TakeU8, Take;
    var chainId :- c.TakeBytes(32, NonCanonicalEncoding);
    var assetId :- c.TakeBytes(32, NonCanonicalEncoding);
    var decimals :- c.ReadU8(NonCanonicalEncoding);
    var tag :- c.ReadU8(NonCanonicalEncoding);
    var representation := Native;
    if tag == 2 {
      var token :- c.TakeBytes(20, NonCanonicalEncoding);
      var hash :- c.TakeBytes(32, NonCanonicalEncoding);
      representation := Erc20(token, hash);
    } else if tag != 1 {
      return Err(NonCanonicalEncoding);
    }
    r := Ok(Asset(chainId, assetId, decimals, representation));
  }

  method DecodeAssets(c: Cursor, count: nat) returns (r: Result<seq<Asset>, RegistryError>)
    requires c.Valid()
    modifies c
    ensures c.Valid() && Follows(r, c.Rest(), GetAssets(count, [], old(c.Rest())))
  {
    hide GetAsset;
    var bindings := [];
    for i := 0 to count
      invariant c.Valid()
      invariant GetAssets(count, [], old(c.Rest())) == GetAssets(count - i, bindings, c.Rest())
    {
      var a :- DecodeAsset(c);
      bindings := bindings + [a];
    }
    r := Ok(bindings);
  }

  method DecodeHeader(c: Cursor) returns (r: Result<(), RegistryError>)
    requires c.Valid()
    modifies c
    ensures c.Valid() && Follows(r, c.Rest(), GetHeader(old(c.Rest())))
  {
    hide TakeU, Take;
    var magic :- c.TakeBytes(8, NonCanonicalEncoding);
    if magic != MAGIC {
      return Err(NonCanonicalEncoding);
    }
    var version :- c.ReadU(2, NonCanonicalEncoding);
    if version != REGISTRY_VERSION {
      return Err(UnsupportedVersion);
    }
    var reserved :- c.ReadU(2, NonCanonicalEncoding);
    if reserved != 0 {
      return Err(NonCanonicalEncoding);
    }
    r := Ok(());
  }

  method DecodeFields(c: Cursor) returns (r: Result<Manifest, RegistryError>)
    requires c.Valid()
    modifies c
    ensures c.Valid() && Follows(r, c.Rest(), GetManifest(old(c.Rest())))
  {
    hide TakeU, TakeU8, Take, GetHeader, GetDom, GetChains, GetAssets;
    var header :- DecodeHeader(c);
    var networkId :- c.TakeBytes(32, NonCanonicalEncoding);
    var epoch :- c.ReadU(8, NonCanonicalEncoding);
    var validFrom :- c.ReadU(8, NonCanonicalEncoding);
    var expiresAt :- c.ReadU(8, NonCanonicalEncoding);
    var dom :- DecodeDom(c);
    var chainCount :- c.ReadU(2, NonCanonicalEncoding);
    if chainCount == 0 || chainCount > MAX_CHAINS {
      return Err(BoundExceeded);
    }
    var chains :- DecodeChains(c, chainCount);
    var assetCount :- c.ReadU(2, NonCanonicalEncoding);
    if assetCount == 0 || assetCount > MAX_ASSET_BINDINGS {
      return Err(BoundExceeded);
    }
    var bindings :- DecodeAssets(c, assetCount);
    r := Ok(Manifest(networkId, epoch, validFrom, expiresAt, dom, chains, bindings));
  }

  /** Decodes, and thereby accepts exactly the strings EncodeManifest produces for fitting manifests. */
  method DecodeManifest(bytes: Bytes) returns (r: Result<Manifest, RegistryError>)
    ensures r == Decode(bytes)
    ensures r.Ok? <==> exists m :: ManifestFits(m) && Encode(m) == Ok(bytes)
  {
    hide GetManifest, PutManifest, ManifestFits, Countable;
    if Decode(bytes).Ok? {
      EncodeDecode(bytes);
    }
    forall m | ManifestFits(m) && Encode(m) == Ok(bytes) ensures Decode(bytes).Ok? {
      DecodeEncode(m);
    }
    var c := new Cursor(bytes);
    var m :- DecodeFields(c);
    if c.position != |bytes| {
      return Err(NonCanonicalEncoding);
    }
    r := Ok(m);
  }
}
