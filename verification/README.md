# Verified core of the settlement layer

This project models the self-contained cores of a cross-chain settlement layer in Dafny and proves
what their code and documentation promise. `dafny verify dfyconfig.toml` checks all of it.

What is modelled:

- **The participant-separated Bitcoin claim round.** Session and transcript digests
  (`ClaimSession`, `ClaimLayout`), authenticated frames (`ClaimWire`), one participant's durable rows and nonce
  vault as a sequence of atomic commits (`ClaimStore`), any number of participants over a network
  that may drop, duplicate, reorder and invent frames (`ClaimProtocol`, `ClaimAgreement`), the
  signing operations and the driver as they run (`ClaimActuator`), completion after any interruption
  (`ClaimTrack`, `ClaimProgress`), two logs as a run of the protocol (`ClaimRun`), what a finished
  round pays and what authorized it (`ClaimPayment`), fences and anchors (`ClaimFence`), and the framed
  duplex stream under them (`ClaimTransport`).
- **Actuation scopes and fee replacement.** The 554-byte scope and the 66-byte outcome
  (`ActuationScope`, `ScopeLayout`, `ActuationStream`), terminal transactions and chains of replacements
  (`Replacement`).
- **Route accounting.** Pins, observations, lock states and per-asset ledgers (`RouteEconomics`), the
  histories they accept (`RouteHistory`) and the checker as it runs (`RouteChecker`).
- **Bitcoin transactions.** CompactSize, BIP 144 parsing and serialization, BIP 141 weight, the
  BIP 341 signature message, double-and-add (`BitcoinTransaction`, `BitcoinParser`,
  `TransactionSize`, `BitcoinSighash`).
- **Canonical codecs.** The registry manifest (`RegistryCodec`, `RegistryLayout`, `RegistryStream`), chain profiles and
  their margin floors (`ChainProfile`), canonical JSON (`CanonicalJson`), RLP (`Rlp`), the
  length-framed digest of source files (`SourceDigest`).
- **Time evidence.** The signed envelope and its threshold check (`TimeEvidence`), concurrent
  publication with crashes and power failures (`TimeRefresh`, `TimeInterruption`, `TimePublisher`).
- **Static gates.** Cycle detection (`DependencyCycles`, `CycleReports`), product and test reachability
  (`ModuleReach`), comment and literal masking (`Masking`, `SolidityMasking`, `RustMasking`), cfg
  implication (`CfgImplication`).

`Wire` holds bytes, fixed-width integers, the growing buffer and the moving cursor that every codec
uses; `Sorting` stands for the library sort.

How to read the statements:

- Codecs are written twice: as functions that put a value in front of the bytes that follow and take
  it off again, and as methods that grow a buffer or move a cursor. The methods are proved equal to
  the functions; the round trips are proved about the functions. Round trips alone would allow any
  order of fields, so layout lemmas say at which offset every field stands and how numbers are written.
- A hash is never assumed injective. Where a digest must fix its preimage, the statement asks only
  that the byte strings actually hashed do not collide (`Wire.InjectiveOn`). In the claim protocol
  `hashed` is any set that contains everything honest participants hash during the run.
- Signatures are ideal: bytes that verify under an honest participant's key were signed by a holder
  of that key. Everything else the network delivers is arbitrary.
- Fresh nonces, partial signatures, results of foreign cryptography, delivered bytes, fragment
  sizes, interruptions, deadlines and clock readings are parameters, so each statement covers every
  choice of them.
- A field of a fixed-width type is modelled as an unbounded value together with a predicate
  (`Typed`, `...Fits`) that says what the type guarantees; arithmetic the source checks for overflow
  is checked in the model.

Where code and comments differ, the code is followed:

- The transcript digest sorts the two nonces, so it fixes the unordered pair; the comment at
  crates/btc-actuator/src/signer.rs:875-876 speaks of positions.
- The rate cap of a fee policy is checked for replacements only. Generation zero may exceed it:
  `Replacement.InitialRateUnchecked` gives an input and `Replacement.CapsFromTheStart` the exact
  condition.
- The closing canonical-bytes comparisons of the scope, outcome and manifest decoders can never
  fail; this is proved, not assumed.
- The docstring at scripts/check-production-readiness-manifest.py:73 says that each cycle is reported
  only once. `CycleReports.ReportedTwice` gives a graph where it is not and
  `CycleReports.EachCycleOnce` the exact condition.
- A rename that has not been synchronised may be lost to a power failure, so the visible target can
  then go back to an older record. `TimeInterruption.TargetCanGoBack` gives such a run and
  `TimeRefresh.PowerFailureExact` the exact condition: it cannot happen precisely when no rename waits
  for the directory to be synchronised. Reported evidence is never lost.

## Model

| member | source | states |
|---|---|---|
| ClaimSession.SessionDigestBinds | crates/btc-actuator/src/signer.rs:293-340 | without collisions, equal session digests mean equal sessions in every public field except the fencing epoch, the roster included, across both digest domains |
| ClaimSession.SessionPreimageInjective | crates/btc-actuator/src/signer.rs:296-338 | the hashed bytes fix every field: fixed-width fields, optional route terms under their own domain, length-prefixed scripts |
| ClaimSession.DomainsDisjoint | crates/btc-actuator/src/signer.rs:332-338 | a legacy and a V11 preimage are never equal, whatever follows the domain |
| ClaimSession.RosterInjective | crates/adapters/btc/src/codec.rs:253-263 | the canonical roster bytes fix version, order, identities, roles and keys |
| ClaimSession.TakeoverKeepsDigest | crates/btc-actuator/src/signer.rs:298-301 | another fencing epoch gives the same session digest, so a takeover continues the same nonce reservation |
| ClaimSession.CsvInjective | crates/btc-actuator/src/signer.rs:891-896 | block and time delays never share a sequence number, and every sequence fits 32 bits |
| ClaimSession.TranscriptSymmetric | crates/btc-actuator/src/signer.rs:867-889 | both participants hash the same bytes, each with its own nonce as the local one |
| ClaimSession.TranscriptInjective | crates/btc-actuator/src/signer.rs:867-889 | the transcript preimage fixes the session and the unordered pair of nonces |
| ClaimLayout.ClaimPays | crates/btc-actuator/src/signer.rs:730-790 | the frozen claim spends the funded contract output, pays the funded amount less the fee to the destination, and is the template the session expects |
| ClaimLayout.ContextMeans | crates/btc-actuator/src/signer.rs:695-729 | a session with a digest has two different participants with compressed keys, named parts, a fee below a bounded amount and bounded scripts |
| ClaimLayout.CsvMeaning | crates/btc-actuator/src/signer.rs:891-896 | the low sixteen bits of the sequence hold the delay and bit 22 says whether it counts time |
| ClaimLayout.SessionLayout | crates/btc-actuator/src/signer.rs:293-340 | the session digest hashes its domain, the identity fields, the contract fields and the spend fields, in this order |
| ClaimLayout.IdentityLayout | crates/btc-actuator/src/signer.rs:296-322 | the offset of every identity field, with and without route terms |
| ClaimLayout.ContractLayout | crates/btc-actuator/src/signer.rs:323-328 | the offset of every contract field, numbers big-endian and the script behind its length |
| ClaimLayout.SpendLayout | crates/btc-actuator/src/signer.rs:329-334 | the offset of every spend field, numbers big-endian and the script behind its length |
| ClaimLayout.RosterLayout | crates/adapters/btc/src/codec.rs:253-263 | the offset of every roster field |
| ClaimLayout.TranscriptLayout | crates/btc-actuator/src/signer.rs:867-889 | domain, session digest, and the two nonces with the smaller one first |
| ClaimLayout.PermitLayout | crates/btc-actuator/src/signer.rs:816-837 | the offset of every field a nonce reservation is derived from |
| ClaimWire.FramedExact | crates/btc-actuator/src/participant_wire.rs:38-62 | framing accepts exactly the encodings of well-sized bodies with non-zero header fields and a 64-byte signature |
| ClaimWire.UnsignedInjective | crates/btc-actuator/src/participant_wire.rs:98-107 | the signed bytes fix kind, role, session, participant, policy, anchors and payload |
| ClaimWire.SignFrame | crates/btc-actuator/src/participant_wire.rs:91-111 | the buffer grown field by field is the frame of the body, returned exactly when it is well framed |
| ClaimWire.VerifiedBody | crates/btc-actuator/src/participant_wire.rs:113-148 | a verified frame has the other role, the peer's identity, this session, policy and anchors, and is signed under the peer's key |
| ClaimStore.ApplyExtends | crates/btc-actuator/src/store.rs:3834-3856 | no commit ever changes a nonce, transcript, partial, reservation, signed frame or completion that is already there |
| ClaimStore.VaultStepExtends | crates/adapters/btc-vault/src/vault.rs:429-504 | a reservation keeps its anchors, its nonce and its partial once they are set |
| ClaimStore.RowStepExtends | crates/btc-actuator/src/store.rs:3743-3808 | opening, binding, recording and re-fencing a row keep every bound column |
| ClaimProtocol.OneReservation | crates/btc-actuator/src/signer.rs:816-837 | the session a context names and the one its row was opened for share one nonce reservation |
| ClaimProtocol.RecordNonceSound | crates/btc-actuator/src/store.rs:1624-1708 | the journalled local nonce is the vault's nonce for the row's session |
| ClaimProtocol.RecordPartialSound | crates/btc-actuator/src/store.rs:1711-1808 | the recorded transcript is the digest of the row's session, the vault's nonce and the bound remote nonce |
| ClaimProtocol.CompleteSound | crates/btc-actuator/src/store.rs:1910-1984 | a completion names the nonces and transcript its durable row holds |
| ClaimProtocol.TakeOverSound | crates/btc-actuator/src/store.rs:1988-2041 | re-fencing keeps a participant's state sound |
| ClaimProtocol.ApplySound | crates/btc-actuator/src/store.rs:1624-2041 | every commit of every operation keeps rows, vault, signed frames and completions consistent with each other |
| ClaimProtocol.GenuineAuthored | crates/btc-actuator/src/participant_wire.rs:113-148 | a frame that verifies under an honest participant's key was signed by that very participant, even if another one holds the same x-only key |
| ClaimAgreement.RunSound | crates/btc-actuator/src/claim_driver.rs:62-77 | every world reachable by any interleaving of commits, crashes, restarts and deliveries is sound |
| ClaimAgreement.FinishedMeansPeerCommitted | crates/btc-actuator/src/participant_wire.rs:199-223 | in every run a finished round rests on nonce and partial frames the honest peer signed for that session, policy and anchors, and the peer's row already holds the mirrored nonces, the transcript and that partial |
| ClaimAgreement.Agreement | crates/btc-actuator/src/claim_driver.rs:62-77 | in every run two participants that finish a session used the same pair of nonces and the same transcript, each on frames the other signed |
| ClaimAgreement.NonceUsedOnce | crates/adapters/btc-vault/src/vault.rs:938-1020 | in every run all nonce frames for one reservation carry one nonce and all partial frames one partial signature |
| ClaimAgreement.RunExtends | crates/btc-actuator/src/claim_driver.rs:29-48 | whatever a participant had bound, signed or finished at one point of a run is still there at every later point |
| ClaimPayment.AuthorizedMeans | crates/btc-actuator/src/store.rs:3714-3727 | a context is authorized only with a claim scope for this session's amount, outpoint, template identity, fee and no change, a window for its terms and delay, and the participant's own authority |
| ClaimPayment.FinishedAuthorized | crates/btc-actuator/src/store.rs:1910-1984 | in every run each finished round was finished under such a context |
| ClaimPayment.FinishedPays | crates/btc-actuator/src/signer.rs:730-790 | in every run each finished round is about a claim that pays the funded amount, less the fee, to the destination |
| ClaimFence.FenceRule | crates/btc-actuator/src/store.rs:3743-3808 | a row is written only under its own fence; only a takeover moves the fence, upwards |
| ClaimFence.StaleRefused | crates/btc-actuator/src/store.rs:1988-2041 | a scope behind the row's fence is refused |
| ClaimFence.FencesRise | crates/btc-actuator/src/store.rs:1988-2041 | in every run the fence of a row never goes back |
| ClaimFence.FinishedAnchored | crates/adapters/btc-vault/src/vault.rs:429-504 | in every run each finished round used the nonce of a reservation made under the round's own anchors |
| ClaimActuator.CrashAnywhere | crates/btc-actuator/src/claim_driver.rs:60-61 | every prefix of an operation's commits is itself accepted, and the next commit is one step from there |
| ClaimActuator.Actuator.Commit | crates/btc-actuator/src/store.rs:3834-3856 | a refused commit changes nothing; an accepted one is the step and is logged |
| ClaimActuator.Actuator.ExposeClaimMessage | crates/btc-actuator/src/participant_wire.rs:165-174 | runs exactly the commits of this operation, up to the first refused; the released frame carries the journalled nonce; a replay leaves nonce and vault as they were |
| ClaimActuator.Actuator.ProduceClaimMessage | crates/btc-actuator/src/participant_wire.rs:177-195 | an unauthentic peer frame changes nothing; otherwise exactly the commits of this operation, and a frame with the journalled transcript and partial for the bound peer nonce |
| ClaimActuator.Actuator.AggregateClaimMessages | crates/btc-actuator/src/participant_wire.rs:199-223 | succeeds exactly when the partial verifies and both commits are accepted; the completion records exactly the two given frames, this policy and these anchors |
| ClaimActuator.Actuator.Drive | crates/btc-actuator/src/claim_driver.rs:62-77 | whatever is delivered, the durable state is a replay of its log and only grows; the round succeeds exactly when both frames arrive, its commits are accepted, its own frames are well formed and the partial verifies, and then rests on exactly the delivered frames |
| ClaimTrack.RoundTracks | crates/btc-actuator/src/store.rs:1624-1984 | every accepted commit of a round, of whichever attempt and with whatever randomness, leads to a state from which the round can be finished |
| ClaimProgress.FrameAccepted | crates/btc-actuator/src/participant_wire.rs:91-148 | a frame one side signs for the round is accepted by the other side with the payload that was signed |
| ClaimProgress.ExposeProgress | crates/btc-actuator/src/participant_wire.rs:165-174 | from every state an interruption may leave, the first operation is accepted and journals and releases the nonce that was reserved first |
| ClaimProgress.AnswerProgress | crates/btc-actuator/src/participant_wire.rs:177-195 | given the peer's nonce frame, all commits of the second operation are accepted and its frame carries the joint transcript and the partial that was reserved first |
| ClaimProgress.FinishProgress | crates/btc-actuator/src/participant_wire.rs:199-223 | given the peer's partial for that transcript, the third operation finishes the round |
| ClaimProgress.RoundCompletes | crates/btc-actuator/src/claim_driver.rs:62-77 | from every such state a whole round on the peer's frames completes, with the nonce reserved first |
| ClaimProgress.RetryCompletes | crates/btc-actuator/src/claim_driver.rs:1-3 | after any commits of any number of interrupted attempts, a retry from phase one completes on the peer's frames with the nonce reserved first |
| ClaimProgress.BothEndsComplete | crates/btc-actuator/src/claim_driver.rs:62-77 | two opposite participants, each in any such state, both finish on each other's frames with the same pair of nonces and the same transcript |
| ClaimRun.RunReplays | crates/btc-actuator/src/claim_driver.rs:29-48 | accepted commits of one participant extend every run of the protocol, when the frames they take are genuine |
| ClaimRun.UndisturbedRun | crates/btc-actuator/src/claim_driver.rs:62-77 | the two logs of an undisturbed round, interleaved operation by operation, are a run that ends with both rounds finished on one session |
| ClaimTransport.Transport.WriteDeadline | crates/btc-actuator/src/claim_driver.rs:119-137 | for every fragmentation and interruption, success writes all bytes once and failure a prefix of them |
| ClaimTransport.Transport.ReadDeadline | crates/btc-actuator/src/claim_driver.rs:139-158 | success fills the buffer with exactly the next bytes of the stream |
| ClaimTransport.Transport.ReadEnvelope | crates/btc-actuator/src/claim_driver.rs:200-217 | an accepted envelope is read to its last byte and has the phase's tag and size |
| ClaimTransport.Transport.ExchangeOnce | crates/btc-actuator/src/claim_driver.rs:184-223 | success writes one envelope and reads one envelope with a well-framed message of the phase |
| ClaimTransport.Transport.Exchange | crates/btc-actuator/src/claim_driver.rs:163-180 | success leaves both directions at the next header; an error poisons the transport, which then never touches the stream again |
| ClaimTransport.EnvelopeLayout | crates/btc-actuator/src/claim_driver.rs:184-199 | magic, phase, a zero byte, the size in two bytes, the frame |
| ClaimTransport.EnvelopeSplit | crates/btc-actuator/src/claim_driver.rs:194-213 | an envelope is never a piece of another one: equal beginnings mean equal phases and frames |
| ClaimTransport.PrefixDelivered | crates/btc-actuator/src/claim_driver.rs:184-223 | whole envelopes read from the front of written envelopes are the first frames written |
| ClaimTransport.EndpointsAgree | crates/btc-actuator/src/claim_driver.rs:119-223 | what one endpoint accepted, exchange by exchange, is what the other sent, and it stands at the next header |
| ActuationScope.CanonicalSize | crates/btc-actuator/src/model.rs:401-405 | every scope encodes to exactly 554 bytes |
| ActuationScope.ComparisonImplied | crates/btc-actuator/src/model.rs:407-528 | bytes that pass the field checks re-encode to themselves, so the closing comparison cannot fail |
| ActuationScope.ReopenExact | crates/btc-actuator/src/model.rs:407-528 | reopening accepts exactly the canonical bytes of valid scopes that carry their own digest |
| ActuationScope.DigestBinds | crates/btc-actuator/src/model.rs:280-281 | without collisions a scope digest fixes every other field |
| ActuationScope.MintedReopens | crates/btc-actuator/src/model.rs:193-282 | every scope that can be minted carries its request and deployment, is 554 bytes long and reopens to itself |
| ScopeLayout.BytesLayout | crates/btc-actuator/src/model.rs:554-617 | the offset of every field in the 554 bytes, and that the digest covers the first 522 |
| ScopeLayout.TagValues | crates/btc-actuator/src/model.rs:37-60 | the tags of legs, actions and networks |
| ScopeLayout.AuthorizeExact | crates/btc-actuator/src/model.rs:193-282 | a scope is minted exactly for such requests: every condition on the request and its deployment |
| ScopeLayout.MintedDigests | crates/btc-actuator/src/model.rs:193-282 | the deployment, challenge and scope digests a minted scope carries |
| ScopeLayout.OutcomeLayout | crates/btc-actuator/src/model.rs:896-925 | tag, primary digest, flag and secondary digest of every outcome |
| ActuationScope.OutcomeComparisonImplied | crates/btc-actuator/src/model.rs:926-973 | the outcome decoder's closing comparison is implied by its tag and padding checks |
| ActuationScope.OutcomeExact | crates/btc-actuator/src/model.rs:896-973 | the 66-byte outcome codec is a bijection between accepted strings and outcomes with non-zero digests |
| ActuationStream.EncodeScope | crates/btc-actuator/src/model.rs:554-617 | the grown buffer is the canonical encoding, 554 bytes for every typed scope |
| ActuationStream.DecodeScope | crates/btc-actuator/src/model.rs:407-673 | the moving decoder accepts exactly the bytes some valid self-digesting scope encodes to |
| Replacement.ValidateTerminal | crates/btc-actuator/src/model.rs:1360-1399 | accepts exactly terminal transactions with one input that spends the contract outpoint, index least significant byte first, and the initial fee left of the contract amount |
| Replacement.SpendsExact | crates/btc-actuator/src/model.rs:1375-1376 | an input spends an outpoint exactly when its bytes are the identity and then the index, least significant byte first |
| Replacement.TerminalAccepted | crates/btc-actuator/src/model.rs:1360-1399 | a transaction that spends the contract output and leaves the initial fee is accepted |
| Replacement.ChainSpends | crates/btc-actuator/src/model.rs:1360-1460 | every generation of a chain has one input and it spends the contract output |
| Replacement.ValidateReplacement | crates/btc-actuator/src/model.rs:1401-1460 | accepts exactly replacements that lower the change output alone, and returns the old fee plus that reduction, within the fee cap and the rate cap at the virtual size of the transaction |
| TransactionSize.SizesExact | crates/btc-actuator/src/model.rs:1451 | the sizes added up field by field are those of the serialized bytes, so the virtual size is a quarter of the BIP 141 weight, rounded up |
| Replacement.RateCap | crates/btc-actuator/src/model.rs:1451-1458 | the rounded-up fee rate is within the cap exactly when the fee is at most cap times virtual size |
| Replacement.Operation.PrepareTerminal | crates/btc-actuator/src/store.rs:828-895 | records generation zero once; repeating it changes nothing, another transaction is refused |
| Replacement.Operation.PrepareReplacement | crates/btc-actuator/src/store.rs:1065-1148 | appends one allowed generation of the same scope family after a mempool observation, or changes nothing |
| Replacement.ReplacementSafety | crates/btc-actuator/src/model.rs:1360-1460 | along every chain outputs plus fee equal the contract amount, fees strictly increase within both caps, and inputs, scripts and protected amounts are those of generation zero |
| Replacement.ChainBounded | crates/btc-actuator/src/model.rs:110-121 | a chain has at most maximum minus initial fee replacements, and no more than the change can pay for |
| Replacement.ClaimNeverReplaced | crates/btc-actuator/src/model.rs:1395-1397 | only a refund ever has a second generation |
| Replacement.CapsFromTheStart | crates/btc-actuator/src/model.rs:1360-1460 | every generation is within both caps exactly when the initial fee is within the rate cap at the first transaction's virtual size |
| Replacement.InitialRateUnchecked | crates/btc-actuator/src/model.rs:1360-1399 | a concrete refund of 60 virtual bytes accepted as generation zero with a fee of 1000 under a cap of 1 per byte, whatever its identity and commitment |
| RouteEconomics.CheckPins | scripts/route_economics_oracle.py:58-90 | accepts exactly valid pins |
| RouteEconomics.PinsCover | scripts/route_economics_oracle.py:73-82 | accepted pins hold exactly one DOM and one counterparty lock for each leg |
| RouteChecker.PinsMean | scripts/route_economics_oracle.py:58-90 | accepted pins have two settlements, a hub chain apart from both legs, and four locks apart from each other with sound payout bounds |
| RouteHistory.HistoryExact | scripts/route_economics_oracle.py:97-132 | the observations accepted are exactly the permitted histories: each in its place, nothing twice, the principal funded once, and one claim to the recipient or refund to the funder afterwards |
| RouteHistory.PaysTheRightParty | scripts/route_economics_oracle.py:118-131 | every accepted claim pays the lock's recipient at least the minimum, every refund its funder, every deposit the lock, and payout plus fee is the principal |
| RouteHistory.LedgersAddUp | scripts/route_economics_oracle.py:117-131 | each ledger holds the sums of deposits, of payouts and of deducted fees of its chain and asset, each by itself |
| RouteHistory.SurplusAddsUp | scripts/route_economics_oracle.py:141-144 | the residual of a chain and asset is the sum of its surplus deposits |
| RouteHistory.OutcomeExact | scripts/route_economics_oracle.py:133-140 | the outcome rule on lock states says what happened: all funded and claimed, or exactly the funded ones refunded, or nothing |
| RouteChecker.SettledMeans | scripts/route_economics_oracle.py:58-147 | a settled route funded every lock and then paid its recipient, who is not its funder, the principal less the fee |
| RouteChecker.CompensatedMeans | scripts/route_economics_oracle.py:58-147 | a compensated route paid nobody but the funders, the principal less the fee |
| RouteChecker.Accumulate | scripts/route_economics_oracle.py:97-132 | the loop over observations computes the fold, or returns its first refusal |
| RouteEconomics.ObserveAllSound | scripts/route_economics_oracle.py:97-132 | after every accepted prefix each ledger is the sum over the locks that share its chain and asset |
| RouteEconomics.FundedOnceClosedOnce | scripts/route_economics_oracle.py:118-131 | each lock is funded at most once, with its exact principal, and claimed or refunded at most once |
| RouteEconomics.NothingTwice | scripts/route_economics_oracle.py:100-117 | no event identity, chain event or effect of a lock is accepted twice |
| RouteEconomics.LedgersBalance | scripts/route_economics_oracle.py:133-147 | after any accepted outcome what came in is what went out plus deducted fees plus residual surplus, for every chain and asset |
| RouteEconomics.ObservationsNeverBelowMinimum | scripts/route_economics_oracle.py:86-89 | the pins' payout bounds make the minimum-payout check redundant |
| RouteChecker.CheckOutcome | scripts/route_economics_oracle.py:133-140 | accepts exactly states that match the outcome |
| RouteChecker.Verify | scripts/route_economics_oracle.py:58-153 | accepts exactly valid pins, headers, permitted histories and matching outcomes, and reports deposits, payouts, fees and surplus of each chain and asset; neither the ledger check nor the minimum-payout check is ever what refuses |
| BitcoinTransaction.ReadCountInverse | scripts/bitcoin_claim_oracle.py:86-127 | a CompactSize reads back to its value whatever follows |
| BitcoinTransaction.ReadCountSound | scripts/bitcoin_claim_oracle.py:115-124 | an accepted CompactSize is the shortest encoding of its value |
| BitcoinTransaction.CompactLayout | scripts/bitcoin_claim_oracle.py:86-94 | one byte below 253, else a marker and two, four or eight bytes, least significant first |
| BitcoinTransaction.TransactionLayout | scripts/bitcoin_claim_oracle.py:134-169 | version, marker and flag exactly with a witness, counted inputs and outputs, witnesses, lock time |
| BitcoinTransaction.InputLayout | scripts/bitcoin_claim_oracle.py:144-150 | outpoint, script behind its size, sequence |
| BitcoinTransaction.OutputLayout | scripts/bitcoin_claim_oracle.py:130-131 | amount in eight bytes, least significant first, and script behind its size |
| BitcoinTransaction.WitnessLayout | scripts/bitcoin_claim_oracle.py:155-160 | for each input the number of its items, and each item behind its size |
| BitcoinTransaction.AcceptedMeans | scripts/bitcoin_claim_oracle.py:134-169 | accepted transactions are bounded, name no input twice and pay amounts that exist |
| BitcoinTransaction.ParseSerialize | scripts/bitcoin_claim_oracle.py:134-169 | every admissible transaction parses back to itself from its BIP 144 serialization |
| BitcoinTransaction.SerializeParse | scripts/bitcoin_claim_oracle.py:134-169 | every accepted byte string is the BIP 144 serialization of an admissible transaction |
| BitcoinTransaction.ParseInjective | scripts/bitcoin_claim_oracle.py:134-169 | distinct accepted strings parse to distinct transactions |
| BitcoinParser.ParseTransaction | scripts/bitcoin_claim_oracle.py:134-169 | the reader with its position computes the parse, the identity over the stripped form and the BIP 141 weight |
| BitcoinSighash.MessageLayout | scripts/bitcoin_claim_oracle.py:175-182 | the offset of every field of the 175-byte BIP 341 message |
| BitcoinSighash.SighashLayout | scripts/bitcoin_claim_oracle.py:183 | the digest is the hash of the tag's hash twice and then the message |
| BitcoinSighash.TagBytes | scripts/bitcoin_claim_oracle.py:183 | the tag is the one BIP 341 names |
| BitcoinSighash.SighashDefined | scripts/bitcoin_claim_oracle.py:172-174 | there is a digest exactly when every input has its spent output and the index names an input |
| BitcoinSighash.JoinedInputs | scripts/bitcoin_claim_oracle.py:176-179 | outpoints and sequences are joined in the order of the inputs |
| BitcoinSighash.JoinedAmounts | scripts/bitcoin_claim_oracle.py:177 | spent amounts are joined in order, eight bytes each, least significant first |
| BitcoinSighash.JoinedScripts | scripts/bitcoin_claim_oracle.py:178 | spent scripts are joined in order, each behind its size |
| BitcoinSighash.JoinedOutputs | scripts/bitcoin_claim_oracle.py:180 | outputs are joined in order, amount and then script behind its size |
| BitcoinSighash.SighashCommits | scripts/bitcoin_claim_oracle.py:172-183 | without collisions two BIP 341 digests agree exactly when version, locktime, outpoints, spent amounts and scripts, sequences, outputs and input index agree |
| BitcoinSighash.ScriptsInjective | scripts/bitcoin_claim_oracle.py:97-98 | concatenated length-prefixed scripts fix the list |
| BitcoinSighash.OutputBytesInjective | scripts/bitcoin_claim_oracle.py:130-131 | concatenated outputs fix amounts and scripts |
| BitcoinSighash.Multiply | scripts/bitcoin_claim_oracle.py:58-65 | double-and-add computes the scalar multiple over any associative operation with identity |
| RegistryCodec.DecodeEncode | crates/deployment-registry/src/codec.rs:18-119 | encoding then decoding returns the manifest exactly when it is within the decoder's bounds |
| RegistryCodec.EncodeDecode | crates/deployment-registry/src/codec.rs:61-119 | every accepted string is the encoding of the manifest it decodes to |
| RegistryCodec.ManifestSize | crates/deployment-registry/src/codec.rs:55-58 | no manifest within bounds comes near the size limit |
| RegistryCodec.DomInverse | crates/deployment-registry/src/codec.rs:121-159 | the hub decoder consumes exactly what its encoder wrote, whatever follows |
| RegistryCodec.ChainInverse | crates/deployment-registry/src/codec.rs:161-384 | the chain decoder consumes exactly what its encoder wrote, whatever follows |
| RegistryCodec.ChainSound | crates/deployment-registry/src/codec.rs:261-384 | an accepted chain entry is within bounds and is what its encoder writes |
| RegistryCodec.ManifestSound | crates/deployment-registry/src/codec.rs:61-119 | every accepted manifest is within bounds and re-encodes to the bytes read |
| RegistryLayout.ManifestLayout | crates/deployment-registry/src/codec.rs:18-59 | the offset of every manifest field: magic, version, window, hub, counted chains and counted assets |
| RegistryLayout.DomLayout | crates/deployment-registry/src/codec.rs:121-140 | the offset of every hub field |
| RegistryLayout.ChainLayout | crates/deployment-registry/src/codec.rs:161-260 | the offset of every field of a chain, its kind, timing, finality, allowed assets and deployment |
| RegistryLayout.TagValues | crates/deployment-registry/src/codec.rs:121-260 | the magic bytes and the tags of networks |
| RegistryStream.EncodeManifest | crates/deployment-registry/src/codec.rs:18-59 | the grown buffer is the encoding, with the same refusals |
| RegistryStream.DecodeManifest | crates/deployment-registry/src/codec.rs:61-119 | the moving reader accepts exactly encodings of manifests within bounds |
| ChainProfile.SafetyMargin | crates/adapters/btc/src/timelock.rs:322-341 | the checked sum of the six budgets never overflows |
| ChainProfile.Validate | crates/chain-profile/src/lib.rs:246-330 | accepts exactly valid profiles; the overflow refusal cannot occur |
| ChainProfile.CounterpartyFloor | crates/chain-profile/src/lib.rs:411-419 | exists for every pair of valid profiles and covers both tolerated reorg depths at the slowest interval |
| ChainProfile.HubFloor | crates/chain-profile/src/lib.rs:427-438 | is the least block count whose fastest duration covers the doubled budget, and exceeds twice the tolerated reorg depth |
| ChainProfile.CanonicalBytes | crates/chain-profile/src/lib.rs:334-395 | encodes exactly valid profiles |
| ChainProfile.CanonicalLayout | crates/chain-profile/src/lib.rs:334-395 | the offset of every chain fact in the canonical bytes |
| ChainProfile.ProfileMeans | crates/chain-profile/src/lib.rs:246-330 | a valid profile has positive budgets, a tolerated depth its budget covers, an EVM chain id above 1, pinned code and distinct assets |
| ChainProfile.CanonicalInjective | crates/chain-profile/src/lib.rs:334-395 | equal canonical bytes mean equal chain facts |
| CanonicalJson.Append | crates/deployment-registry/src/contract_release.rs:402-438 | the recursive append writes the canonical form of the value |
| CanonicalJson.EscapeTable | crates/deployment-registry/src/contract_release.rs:402-438 | how characters and numbers are written |
| CanonicalJson.SmallDocument | crates/deployment-registry/src/contract_release.rs:402-438 | one nested document, byte by byte |
| CanonicalJson.ValueInverse | crates/deployment-registry/src/contract_release.rs:402-445 | a parser for the emitted grammar gives back every nested value, whatever follows it that does not continue a number |
| CanonicalJson.CanonicalInjective | crates/deployment-registry/src/contract_release.rs:298-306 | distinct values never share canonical bytes |
| CanonicalJson.DigestFixesRecord | crates/deployment-registry/src/contract_release.rs:447-459 | unless its preimages collide, equal digests mean equal records |
| Rlp.ByteLengthExact | contracts/scripts/release_manifest.py:556-557 | the byte length taken from the bit length is the least that holds the number |
| Rlp.PrefixLayout | contracts/scripts/release_manifest.py:551-565 | one prefix byte up to 55 bytes, else the length of the length and the length without leading zeros |
| Rlp.ItemLayout | contracts/scripts/release_manifest.py:551-565 | a small byte stands for itself, other strings have a prefix from 0x80 and lists one from 0xC0 |
| Rlp.CreateLayout | contracts/scripts/release_manifest.py:568-572 | the bytes of a creation preimage: list byte, 0x94, creator, shortest nonce |
| Rlp.BytesInverse | contracts/scripts/release_manifest.py:551-557 | a parser gives back every byte string below 2^64 bytes, whatever follows |
| Rlp.BytesPrefixFree | contracts/scripts/release_manifest.py:551-557 | byte-string encodings are prefix-free |
| Rlp.ListInverse | contracts/scripts/release_manifest.py:560-565 | a parser gives back every list, whatever follows |
| Rlp.ListsPrefixFree | contracts/scripts/release_manifest.py:551-565 | list encodings are prefix-free and never confused with byte strings |
| Rlp.CreatePreimageInjective | contracts/scripts/release_manifest.py:568-572 | the address preimage fixes the creator and the nonce |
| SourceDigest.Feed | contracts/scripts/release_manifest.py:138-152 | the loop over sorted files feeds exactly the preimage and refuses exactly duplicates and overlong items |
| SourceDigest.PreimageLayout | contracts/scripts/release_manifest.py:138-152 | domain, a zero byte and the files in strictly ascending order of their paths |
| SourceDigest.FileLayout | contracts/scripts/release_manifest.py:147-151 | path behind four bytes of length, content behind eight |
| SourceDigest.OrderIrrelevant | contracts/scripts/release_manifest.py:138-152 | the preimage does not depend on the order the files come in |
| SourceDigest.PreimageInjective | contracts/scripts/release_manifest.py:138-152 | equal preimages mean the same files with the same contents |
| TimeEvidence.DecodeExact | scripts/time_evidence_oracle.py:53-77 | the envelope decoder accepts exactly the encodings of valid evidence |
| TimeEvidence.DecodeEnvelope | scripts/time_evidence_oracle.py:53-77 | the loop over signatures, with its ordering check, computes the decoding |
| TimeEvidence.EnvelopeLayout | scripts/time_evidence_oracle.py:53-77 | the offset of every part of an accepted envelope, each signature with its signer |
| TimeEvidence.AcceptedBody | scripts/time_evidence_oracle.py:53-77 | accepted evidence has a positive sequence, an open window, a named policy and scope, and three checkpoints in order |
| TimeEvidence.VerifiedTimely | scripts/time_evidence_oracle.py:80-97 | verified evidence meets the pins' policy, scope and minimum sequence and its window contains the clock, read off its bytes |
| TimeEvidence.ThresholdOfDistinctKeys | scripts/time_evidence_oracle.py:80-97 | accepted evidence is signed over its body by at least the threshold of distinct authority keys |
| TimeRefresh.ActSound | scripts/publish_time_refresh.py:47-99 | every step of every publisher keeps lock, files and reports consistent, every file that can be the target flushed, and each newer than the ones before it |
| TimeRefresh.TargetNeverGoesBack | scripts/publish_time_refresh.py:67-72 | in every interleaving of publishers, crashes and power failures that strike while no rename waits for the directory to be synchronised, a later target is the same bytes or newer evidence for the same policy and scope |
| TimeRefresh.EqualSequenceSameBytes | scripts/publish_time_refresh.py:67-72 | under the same condition sequences never decrease and equal sequences mean identical bytes |
| TimeRefresh.PowerFailureExact | scripts/publish_time_refresh.py:73-91 | no power failure can take the target back exactly when no rename waits for the directory to be synchronised |
| TimeRefresh.PowerFailureWhole | scripts/publish_time_refresh.py:73-77 | since every file is flushed before it is renamed, a power failure leaves the synchronised file or one renamed since, whole |
| TimeRefresh.UnflushedMayTear | scripts/publish_time_refresh.py:76 | a file that was not flushed could be left as any proper beginning of itself |
| TimeInterruption.InterruptedGoesBack | scripts/publish_time_refresh.py:73-91 | interrupting the publication of any newer record between rename and synchronisation can leave the older target |
| TimeInterruption.TargetCanGoBack | scripts/publish_time_refresh.py:73-91 | a concrete run in which the target is record 2, and record 1 again after the power failed |
| TimeRefresh.DiskNeverGoesBack | scripts/publish_time_refresh.py:73-91 | what the disk holds never goes back and reported evidence is never lost, power failures included |
| TimeRefresh.TargetWholeAndEndorsed | scripts/publish_time_refresh.py:47-81 | in every run, power failures included, the target is the initial record or the whole record some publisher brought, signed over its body by a threshold of distinct keys in that publisher's pins, for their policy, scope and sequence, and within its window at that publisher's clock |
| TimePublisher.StateDirectory.Publish | scripts/publish_time_refresh.py:47-99 | succeeds exactly when the evidence verifies, the lock is free and the target is older or equal; then target and disk are this evidence, otherwise nothing changed |
| TimePublisher.StateDirectory.PublishLocked | scripts/publish_time_refresh.py:61-93 | with the lock held, refuses exactly evidence that is neither newer nor the same, otherwise flushes, renames and synchronises, so that target and disk are this evidence |
| TimePublisher.StateDirectory.Replace | scripts/publish_time_refresh.py:73-78 | writing in pieces of any size, flushing and renaming puts the whole evidence in place |
| DependencyCycles.ClosedWalkMeetsReport | scripts/check-production-readiness-manifest.py:72-98 | when every finished node's dependencies finished earlier or end a report, every closed walk contains a dependency that ends a report |
| DependencyCycles.VisitSound | scripts/check-production-readiness-manifest.py:79-93 | a visit keeps markers, path and reports consistent, restores the path, forgets nothing, and its node is finished or the dependency that led to it ends a report |
| DependencyCycles.Search.Visit | scripts/check-production-readiness-manifest.py:79-93 | the recursion over the shared fields terminates and leaves exactly the state of the functional search |
| DependencyCycles.FindDependencyCycles | scripts/check-production-readiness-manifest.py:72-98 | every list returned is a closed walk along dependencies between known nodes, every closed walk contains a dependency that ends a returned list, and none is returned exactly when there is no closed walk |
| CycleReports.NoRepetitionReportedOnce | scripts/check-production-readiness-manifest.py:72-98 | unless a node lists twice a known dependency that leads back to it, no two lists returned go round the same cycle, from whatever start |
| CycleReports.StartReportsTwice | scripts/check-production-readiness-manifest.py:72-98 | a search that starts at such a dependency returns one cycle twice |
| CycleReports.EachCycleOnce | scripts/check-production-readiness-manifest.py:73 | each cycle is reported once in every order of the nodes exactly when no node lists twice a known dependency that leads back to it |
| CycleReports.ReportedTwice | scripts/check-production-readiness-manifest.py:73 | two nodes, one listing the other twice: one cycle, reported twice |
| ModuleReach.ReachableIsLeast | scripts/guard_layer_policy.py:1177-1193 | reachability is the least set that holds the seeds and is closed under the edges |
| ModuleReach.Closure | scripts/guard_layer_policy.py:1174-1193 | the worklist terminates with exactly the reachable files |
| ModuleReach.ClassesExact | scripts/guard_layer_policy.py:1161-1195 | the two reachabilities are walks along the edges themselves, from product starts by non-test edges and from test starts by any |
| ModuleReach.WholeTestOnly | scripts/guard_layer_policy.py:1147-1195 | a file is excluded exactly when a conventional test or the target of a test edge leads to it and no product root or unnamed non-test file does through non-test edges |
| Masking.MaskKeepsShape | scripts/guard_layer_policy.py:582-583 | masking keeps length and line breaks, changes nothing outside the spans, and is idempotent |
| Masking.MergeSpans | scripts/guard_layer_policy.py:880-887 | merged spans are apart and cover exactly what the spans covered |
| Masking.MaskSpans | scripts/guard_layer_policy.py:890-898 | copying and blanking piece by piece blanks exactly the covered positions |
| Masking.MaskAll | scripts/guard_layer_policy.py:880-898 | sorting, merging and masking blanks a position exactly when some span covers it |
| SolidityMasking.SanitizeSolidity | scripts/guard_layer_policy.py:709-746 | the region scanner leaves exactly what a character-by-character lexer leaves |
| SolidityMasking.LexedKeepsShape | scripts/guard_layer_policy.py:709-746 | length and line breaks are kept and only blanked characters change |
| SolidityMasking.LexedTwice | scripts/guard_layer_policy.py:709-746 | masking twice is masking once |
| RustMasking.SanitizeRust | scripts/guard_layer_policy.py:645-708 | the scanner blanks exactly the comments, and on request the literals, found by the lexeme rules |
| RustMasking.QuotedEndExact | scripts/guard_layer_policy.py:607-616 | a string literal ends at the first quote with an even number of backslashes before it, or with the text |
| RustMasking.BlockEndExact | scripts/guard_layer_policy.py:669-682 | a block comment ends past the first delimiter after which as many were closed as opened, or with the text |
| RustMasking.DelimitersCover | scripts/guard_layer_policy.py:669-682 | every comment delimiter in the text is one of those counted, or overlaps the one just before it |
| RustMasking.RawEndExact | scripts/guard_layer_policy.py:586-604 | a raw string ends past the first quote followed by as many hashes as opened it, or with the text |
| RustMasking.CharExamples | scripts/guard_layer_policy.py:619-642 | character literals and a lifetime, told apart |
| RustMasking.RegionKinds | scripts/guard_layer_policy.py:645-708 | a region is a comment exactly when a comment delimiter opens it, and a literal only when a quote, an apostrophe or a string prefix does |
| RustMasking.RegionEnds | scripts/guard_layer_policy.py:658-705 | where line comments, block comments and strings end in the text |
| RustMasking.OutsideIsCode | scripts/guard_layer_policy.py:658-705 | no position is passed over: outside all regions no comment and no string opens |
| RustMasking.TextDecides | scripts/guard_layer_policy.py:645-708 | text a comment delimiter opens is always blanked, and other regions only on request |
| RustMasking.RegionsApart | scripts/guard_layer_policy.py:658-705 | comments and literals follow one another without overlapping |
| RustMasking.SanitizedKeepsShape | scripts/guard_layer_policy.py:645-708 | length and line breaks are kept, comments are blank, and code outside comments and literals is unchanged |
| RustMasking.StrippingTouchesLiteralsOnly | scripts/guard_layer_policy.py:645-708 | with and without literal stripping the results differ only inside literals |
| CfgImplication.SplitCfgArguments | scripts/guard_layer_policy.py:749-762 | the loop cuts at commas outside parentheses and drops empty pieces |
| CfgImplication.SplitPrinted | scripts/guard_layer_policy.py:749-762 | splitting a printed argument list gives back the texts of the arguments |
| CfgImplication.ImplicationSound | scripts/guard_layer_policy.py:765-784 | a true answer means every valuation that satisfies the expression sets a required atom |
| CfgImplication.ImplicationExact | scripts/guard_layer_policy.py:765-784 | a false answer is exact as well: some valuation sets no required atom and satisfies the expression as far as the check looks, which is into neither negations nor an empty any |
| CfgImplication.PositiveExact | scripts/guard_layer_policy.py:765-784 | on expressions without negation and without an empty any the check decides implication |
| CfgImplication.CheckAgrees | scripts/guard_layer_policy.py:765-784 | on every spacing of every well-formed expression, with or without cfg(...) around it, the string check agrees with the tree recursion and is sound |

## Left out

- Curve arithmetic, MuSig2, adaptor signatures, Schnorr verification and all hash functions: foreign primitives, kept abstract; `multiply` is proved over an abstract associative operation.
- Leases, clock checks, storage audits and the nonce-parity column of the claim store: they can only refuse a step, and a refused step changes nothing.
- The abort, consume and mark-spent states of the nonce vault, and the sealing of its secrets: the claim path never uses the first, and the second is cryptography.
- Two stores or two vaults for one participant identity: the model gives each identity one of either, as the participant binding in the store demands.
- Broadcasting, confirmations and port-call journals: I/O and stage bookkeeping around the modelled checks.
- JSON syntax, hexadecimal parsing and dynamic type checks of the Python checkers: inputs arrive as typed values.
- File ownership, permission and inode checks of the publisher: they can only refuse before anything is written.
- Locating test-only items, attributes and modules in Rust source: regular-expression and path plumbing around the modelled span, mask and reachability steps.
- Section-level validation of registry manifests and release records beyond the codec: lists of independent comparisons.
- RustMasking.SanitizeRust: follows what the scanner recognises, because Rust's lexical grammar is wider than that.
