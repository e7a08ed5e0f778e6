# Verified model of the treasury stack

This project models, in Dafny, the code that decides who may move treasury money, and proves what that code keeps over
every run. Dafny integers are unbounded; 16-bit, 128-bit and 256-bit limits are written out where the source has them.

| files | models |
|---|---|
| `SwapSigner.dfy`, `SwapGuarantees.dfy` | the Ledger swap signer: concurrent async calls over shared closure variables, one step per stretch between two awaits; what holds over every interleaving |
| `SendServer.dfy`, `SendGuarantees.dfy`, `SendRoutes.dfy` | the send pipeline as a transition system (job board, attestation table, disk, Gateway, chain, restarts), what holds over its runs, and the class of methods that refines it |
| `SendValidation.dfy`, `Frost.dfy` | request validation, the FROST share map and the coordinator's share decision |
| `WeightedRule.dfy`, `Bits.dfy`, `Coalitions.dfy`, `TreasurySpec.dfy` | the weighted rule, its compilation to minimal winning coalitions and to EVM weights |
| `BigEndian.dfy`, `BurnIntent.dfy`, `IntentPolicy.dfy`, `Base58.dfy` | the burn-intent layout across TypeScript and Rust, the coordinator's policy, base58 |
| `JsonText.dfy`, `NumberText.dfy`, `IntegerText.dfy`, `StableJson.dfy`, `Decimal.dfy`, `EvidenceToken.dfy` | canonical JSON, canonical decimals, sealed evidence tokens |
| `StubLedger.dfy` | the in-memory conduit ledger |
| `Text.dfy`, `Wrappers.dfy` | string operations, `Option` and `Result` |

Hashes and seals are function parameters, injective or invertible where a theorem says so. `dafny verify dfyconfig.toml`
checks everything.

## What the proofs found

Each point below is a place where the code does less, or other, than its comments suggest. The model follows the code,
and a lemma states exactly when the promised property holds.

- **A paid mint can stay pending for ever.** `gatewayMint` can throw after its success receipt, and a restart drops the
  promise that would have cleared the entry. `SendGuarantees.SavedAttestationFinishable` shows that a saved attestation can
  be finished if and only if it is unpaid or the paying transaction is still awaited; otherwise
  `SendGuarantees.OrphanBlocksItsKey` shows that its recipient and amount can never be sent again.
- **A lost Gateway reply is outside the guard.** The pending table knows only accepted transfers whose reply arrived.
  `SendGuarantees.DoublesExactlyAfterALostReply` gives the exact condition.
- **`close()` does not recall a device prompt.** Nothing is broadcast or released after `close()`, but a call that has
  passed `enter`, for a transaction or for the order, can still ask the Ledger to sign
  (`SwapGuarantees.ClosedSignerMayStillPrompt`).
- **A failed attempt ends the swap.** A throw between `attempted = nextStep` and the broadcast, or a reverted receipt,
  leaves the step attempted with nothing pending, and no later call can send it
  (`SwapGuarantees.SwapGoesOnExactlyWhileAlive`).
- **The recovery id is ambiguous for two chain ids in every 128**, Arbitrum Sepolia among them. A one-byte legacy `v` of
  0 or 1 is taken as a parity, which is the wrong one (`SwapGuarantees.TruncatedRecoveryId`). The owner check then
  refuses the owner's own signature and nothing goes out (`SwapGuarantees.LegacySignatureIsAcceptedExactlyOff`).
- **Key generation counts shares in 16 bits.** Share counts equal weights if and only if the total is at most 65534
  (`Frost.ShareCountsMatchWeights`): the counter holds the next free id, one past the last share.
- **The unchecked `u256be` truncates** values outside [0, 2^256), where its sibling throws
  (`BigEndian.UncheckedIsFaithfulIffItFits`).
- **Base58 texts are not unique per key**: the decoder does not compare leading ones with leading zero bytes
  (`Base58.EncodeDecode`).
- **A quorum list is summed as given**, so a repeated owner counts twice
  (`StubLedger.ApprovalIsFaithfulExactlyToDistinctLists`).
- **`submitApproved` trusts the nonce it is given**: `StubLedger.AgainExactlyUnderAFreshNonce` says when an intent runs
  twice. It also prices only swaps: `StubLedger.WorthRisesExactlyWhen` says when a submission makes money.
- **`validateReference` falls off its switch on an unknown kind**, so such a token can be sealed and never opens
  (`EvidenceToken.UnknownKindNeverOpens`); and an invalid `Date` passed to `openCreEvidenceToken` passes the expiry
  comparison (`EvidenceToken.TokenOpensExactlyInItsWindow`, with no clock).
- **`units` of a negative amount is no decimal text** (`Decimal.UnitsAreExact`).

## Model

| member | source | states |
|---|---|---|
| `SwapSigner.StepKeepsInv` | packages/ledger/src/native/ledger-native.service.ts:553-696 | every step of every interleaving keeps the signer invariant (lock, counters, phases, event log) |
| `SwapSigner.RunKeepsInv` | packages/ledger/src/native/ledger-native.service.ts:536-696 | every reachable state satisfies it |
| `SwapGuarantees.StepsGoOutOnceInOrder` | packages/ledger/src/native/ledger-native.service.ts:582-647 | in any run each reviewed step is asked of the device at most once and broadcast at most once, in increasing order |
| `SwapGuarantees.BroadcastFollowsConfirmation` | packages/ledger/src/native/ledger-native.service.ts:567-643 | a broadcast carries exactly the reviewed transaction, and step k+1 goes out only after a success receipt whose hash equals the signed hash of step k |
| `SwapGuarantees.CriticalSectionIsExclusive` | packages/ledger/src/native/ledger-native.service.ts:553-580 | `busy` means exactly one call in flight; a pending transaction has step = `nextStep` = `attempted` |
| `SwapGuarantees.ResumeOnlyReadsReceipts` | packages/ledger/src/native/ledger-native.service.ts:679-691 | whatever the interleaving, a resume call never asks the device and never sends |
| `SwapGuarantees.NothingLeavesAfterClose` | packages/ledger/src/native/ledger-native.service.ts:631-636 | after `close()` no broadcast begins and no order signature is released |
| `SwapGuarantees.OrderSignedOnce` | packages/ledger/src/native/ledger-native.service.ts:648-677 | the reviewed order is asked of the device at most once and released at most once |
| `SwapGuarantees.ClosedSignerMayStillPrompt` | packages/ledger/src/native/ledger-native.service.ts:595-662 | a closed signer can still ask the device to sign, a transaction or the order, if and only if some call has left `enter` and not yet asked |
| `SwapGuarantees.ClosedPromptIsReachable` | packages/ledger/src/native/ledger-native.service.ts:553-566 | such states are reached from the initial one, for any first transaction and for any order |
| `SwapGuarantees.SwapGoesOnExactlyWhileAlive` | packages/ledger/src/native/ledger-native.service.ts:582-647 | from any reachable state another transaction can go out if and only if the signer is open and either a pending one has a successor, or the next step exists and was not attempted, or its only attempt is still before its broadcast |
| `SwapGuarantees.BlockedSwapIsReachable` | packages/ledger/src/native/ledger-native.service.ts:591-598 | one throw while connecting leaves an open swap with steps left and no way on |
| `SwapGuarantees.TruncatedRecoveryId` | packages/ledger/src/native/ledger-native.service.ts:616-625 | the recovered parity is right if and only if the byte exceeds 1, which fails exactly on chain ids 110 and 111 modulo 128 |
| `SwapGuarantees.LegacySignatureIsAcceptedExactlyOff` | packages/ledger/src/native/ledger-native.service.ts:616-631 | an open signer carries the owner's legacy signature on to its broadcast exactly when the plan's chain id is off those residues; on them the owner check ends the call with nothing sent |
| `SwapGuarantees.ArbitrumSepoliaRefusesOddParity` | packages/ledger/src/native/ledger-native.service.ts:616-631 | a plan on chain id 421614 is on them |
| `SwapSigner.LedgerSwapSigner.constructor` | packages/ledger/src/native/ledger-native.service.ts:536-542 | the initial variables are the initial state and satisfy the invariant |
| `SwapSigner.LedgerSwapSigner.SendTransaction` | packages/ledger/src/native/ledger-native.service.ts:582-595 | the synchronous part of a send is the transition system's step, and keeps the invariant |
| `SwapSigner.LedgerSwapSigner.SignTypedData` | packages/ledger/src/native/ledger-native.service.ts:648-653 | the same for an order |
| `SwapSigner.LedgerSwapSigner.ResumeTransaction` | packages/ledger/src/native/ledger-native.service.ts:680-684 | the same for a resume |
| `SwapSigner.LedgerSwapSigner.Close` | packages/ledger/src/native/ledger-native.service.ts:692-696 | the same for a close |
| `SwapSigner.LedgerSwapSigner.ConfirmPending` | packages/ledger/src/native/ledger-native.service.ts:567-580 | a receipt moves `pending` and `nextStep` as the system's settlement does |
| `SwapSigner.LedgerSwapSigner.SendSegment` | packages/ledger/src/native/ledger-native.service.ts:596-647 | each stretch of a send between awaits is the system's segment |
| `SwapSigner.LedgerSwapSigner.OrderSegment` | packages/ledger/src/native/ledger-native.service.ts:654-677 | each stretch of an order between awaits is the system's segment |
| `SwapSigner.LedgerSwapSigner.Continue` | packages/ledger/src/native/ledger-native.service.ts:553-691 | resuming any call on any reply is one step of the transition system and keeps the invariant |
| `SendServer.StepKeepsInv` | apps/ultimate-treasury/server/send.ts:130-365 | every step, including restarts and transactions landing, keeps the server invariant |
| `SendServer.RunKeepsInv` | apps/ultimate-treasury/server/send.ts:130-365 | every reachable state satisfies it |
| `SendGuarantees.NeverSentTwice` | apps/ultimate-treasury/server/send.ts:119-170 | between two recorded attestations for one lower-cased recipient and value, a mint of the first returned after a success receipt |
| `SendGuarantees.UnmintedKeysAreDistinct` | apps/ultimate-treasury/server/send.ts:130-205 | no two unminted attestations share recipient and value; memory equals disk |
| `SendGuarantees.PendingUntilMintReturns` | apps/ultimate-treasury/server/send.ts:132-170 | a recorded attestation is pending with the same bytes, in memory and on disk, if and only if it is not cleared |
| `SendGuarantees.SubmissionsCarryTheRecordedNote` | apps/ultimate-treasury/server/send.ts:208-234 | all submissions of a job carry the recorded bytes, and none follows its clearing |
| `SendGuarantees.ClearedMeansPaid` | apps/ultimate-treasury/server/send.ts:280-297 | a cleared attestation was paid by a transaction of its own job |
| `SendGuarantees.JobLifecycle` | apps/ultimate-treasury/server/send.ts:186-259 | at most one job runs and it is on the board; when the lock is free every job is minted, refused or error with no step pending or running |
| `SendServer.NewJobStays` | apps/ultimate-treasury/server/send.ts:200-201 | evicting the oldest job never evicts the one just added |
| `SendGuarantees.SavedAttestationFinishable` | apps/ultimate-treasury/server/send.ts:208-234 | from any reachable state some continuation clears a pending attestation if and only if it is not paid by a transaction nobody awaits |
| `SendGuarantees.OrphanBlocksItsKey` | apps/ultimate-treasury/server/send.ts:149-155 | otherwise, after any continuation, a send of that recipient and value is refused |
| `SendGuarantees.OrphanIsReachable` | apps/ultimate-treasury/server/send.ts:280-286 | a mint that lands just before a restart leaves such an attestation, for any id, EVM ticket and attestation |
| `SendGuarantees.HeardRunsNeverDouble` | apps/ultimate-treasury/server/send.ts:299-304 | in any run in which no Gateway acceptance is lost, no two issued attestations are open for one recipient and value |
| `SendGuarantees.LostReplyCanDouble` | apps/ultimate-treasury/server/send.ts:321-323 | once one acceptance is lost, some continuation that loses no other has two open |
| `SendGuarantees.DoublesExactlyAfterALostReply` | apps/ultimate-treasury/server/send.ts:299-323 | from any reachable state, a continuation that loses no acceptance can have two open if and only if one was lost before |
| `SendGuarantees.LostReplyIsReachable` | apps/ultimate-treasury/server/send.ts:321-323 | a fresh server reaches such a state by one lost acceptance |
| `SendRoutes.Server.constructor` | apps/ultimate-treasury/server/send.ts:130-130 | a fresh server is the initial state |
| `SendRoutes.Server.AssertNoPendingMint` | apps/ultimate-treasury/server/send.ts:149-155 | a clash is reported if and only if some pending entry has that lower-cased recipient and value |
| `SendRoutes.Server.LoadPendingMints` | apps/ultimate-treasury/server/send.ts:158-170 | memory becomes what the disk holds |
| `SendRoutes.Server.Reboot` | apps/ultimate-treasury/server/send.ts:157-170 | a restart is the system's restart step and keeps the invariant |
| `SendRoutes.Server.StartSend` | apps/ultimate-treasury/server/send.ts:173-205 | a validated request is the system's start step; a refused one changes nothing and says why |
| `SendRoutes.Server.Enqueue` | apps/ultimate-treasury/server/send.ts:184-205 | the pending check, the lock and the new job together are one step |
| `SendRoutes.Server.ResumeMint` | apps/ultimate-treasury/server/send.ts:208-234 | a resume is the system's resume step, refused without an attestation or while the lock is held |
| `SendRoutes.Server.PipelineSegment` | apps/ultimate-treasury/server/send.ts:306-365 | each stretch of `runEvm` and `runSolana` before the mint is the system's segment |
| `SendRoutes.Server.MintSegment` | apps/ultimate-treasury/server/send.ts:280-297 | each stretch of `mint` is the system's segment |
| `SendRoutes.Server.SettleSegment` | apps/ultimate-treasury/server/send.ts:239-258 | the catch and finally handlers are the system's segment |
| `SendRoutes.Server.Continue` | apps/ultimate-treasury/server/send.ts:236-365 | resuming any job on any reply is one step of the transition system and keeps the invariant |
| `SendValidation.FrostDrift` | apps/ultimate-treasury/server/send.ts:107-117 | no drift is reported if and only if threshold and every owner's share count equal the on-chain policy, with no extra holders |
| `SendValidation.AcceptedSendIsCovered` | apps/ultimate-treasury/server/send.ts:60-104 | an accepted request meets both caps and the balance whatever the client flags say; its signers are distinct owners |
| `SendValidation.RefusalFlagOnlyAdds` | apps/ultimate-treasury/server/send.ts:61-62 | `expectRefusal` never turns a refusal into an acceptance nor changes an outcome |
| `WeightedRule.SignersWeighTheirOwners` | apps/ultimate-treasury/server/send.ts:75-75 | the sum over the signer list is the reference rule's weight of the signer set |
| `SendValidation.SharesCountTheWeight` | apps/ultimate-treasury/server/send.ts:110-113 | without drift the listed signers' shares number their on-chain weight |
| `SendValidation.SignersHoldShares` | tools/frost-delegate/src/main.rs:312-324 | without drift an owner holds shares if and only if it weighs at least one |
| `SendValidation.CoordinatorDecidesTheRule` | tools/frost-delegate/src/main.rs:416-423 | for a share map written by key generation and free of drift, and any list of labels: refused if and only if a label is repeated or is no owner with weight; else signs if and only if `isWinning` holds, with as many shares as weight |
| `SendValidation.LabelsAreSigners` | apps/ultimate-treasury/server/solana.ts:122-124 | the labels read from the joined list are the signers, unless a weightless owner's name holds a comma |
| `SendValidation.CommaNameActsAsItsParts` | tools/frost-delegate/src/main.rs:281-285 | a name with a comma is read as its parts |
| `SendValidation.AcceptedSolanaSendSignsIffItWins` | apps/ultimate-treasury/server/send.ts:99-103 | for every accepted Solana send the share check passes if and only if the labels read are distinct owners with weight that win; for listable names, if and only if the signers' weight reaches the threshold and none is weightless |
| `Frost.AssignRanges` | tools/frost-delegate/src/main.rs:309-328 | the assignment loop with its 16-bit counter computes the specified share map or refuses |
| `Frost.AssignShares` | tools/frost-delegate/src/main.rs:309-328 | the same from the command-line text |
| `Frost.ShareCountsMatchWeights` | tools/frost-delegate/src/main.rs:312-324 | every owner holds exactly its weight in shares if and only if the total weight is at most 65534 |
| `Frost.ResolveShares` | tools/frost-delegate/src/main.rs:281-292 | the resolved set is the union of the listed owners' shares; unknown and repeated labels are refused |
| `Frost.DecideSigning` | tools/frost-delegate/src/main.rs:416-423 | the decision is refused, below threshold or signing, by the size of the resolved set |
| `Frost.RangesDisjoint` | tools/frost-delegate/src/main.rs:322-323 | two owners never hold one share id |
| `Frost.HoldingsAddUp` | tools/frost-delegate/src/main.rs:281-292 | for distinct labels the resolved set has as many ids as the owners' counts add up to |
| `WeightedRule.IsWinning` | packages/weighted-treasury/src/coalitions.ts:25-29 | the loop decides whether the chosen members' weight reaches the threshold |
| `WeightedRule.WinningIsMonotone` | packages/weighted-treasury/src/coalitions.ts:25-29 | more approvers never lose |
| `Bits.PopCount` | packages/weighted-treasury/src/coalitions.ts:62-66 | Kernighan's loop terminates with the true number of one bits |
| `Bits.OnesCountsChosen` | packages/weighted-treasury/src/coalitions.ts:62-66 | which is the size of the member set the mask stands for |
| `Coalitions.LowBitOrder` | packages/weighted-treasury/src/coalitions.ts:73-80 | the loop compares masks by their first differing member |
| `Coalitions.OrderIsTotal` | packages/weighted-treasury/src/coalitions.ts:67-80 | size then member position is antisymmetric, transitive, and ties only equal masks |
| `Coalitions.SortIsUnique` | packages/weighted-treasury/src/coalitions.ts:67-67 | any two sorted lists of the same masks are equal, so the result does not depend on the sorting algorithm |
| `Coalitions.SortMasks` | packages/weighted-treasury/src/coalitions.ts:67-67 | the result is strictly sorted with the same elements |
| `Coalitions.IsMinimal` | packages/weighted-treasury/src/coalitions.ts:55-58 | the drop-one loop decides minimality |
| `Coalitions.Enumerate` | packages/weighted-treasury/src/coalitions.ts:44-60 | the mask loop collects exactly the minimal winning masks, each once |
| `Coalitions.MinimalWinningCoalitions` | packages/weighted-treasury/src/coalitions.ts:35-70 | the result lists the ids of exactly the minimal winning masks, strictly sorted |
| `Coalitions.NoProperSubsetWins` | packages/weighted-treasury/src/coalitions.ts:55-58 | dropping single members is enough: no proper subset of a minimal set wins |
| `Coalitions.CoalitionsMeanTheRule` | packages/weighted-treasury/src/coalitions.ts:25-70 | a set of approvers reaches the threshold if and only if it contains a listed coalition |
| `Coalitions.ListIsComplete` | packages/weighted-treasury/src/coalitions.ts:50-60 | every minimal winning set is listed |
| `Coalitions.ListIsNotEmpty` | packages/weighted-treasury/src/coalitions.ts:35-70 | some coalition is listed whenever any set of approvers wins |
| `Coalitions.ListIsAnAntichain` | packages/weighted-treasury/src/coalitions.ts:50-60 | no listed coalition contains another |
| `Coalitions.ListIsSorted` | packages/weighted-treasury/src/coalitions.ts:62-80 | lists go by size, then by the first position where they differ |
| `TreasurySpec.ValidateOwners` | packages/weighted-treasury/src/validate.ts:19-30 | the loop accepts if and only if every owner is valid and ids are distinct, and adds up the weights |
| `TreasurySpec.ValidateSpec` | packages/weighted-treasury/src/validate.ts:11-56 | no problem is reported if and only if the spec is valid |
| `TreasurySpec.ValidSpecCanBeMet` | packages/weighted-treasury/src/validate.ts:32-34 | a valid spec's owners together reach its threshold |
| `TreasurySpec.ValidSpecCompilesToCoalitions` | packages/weighted-treasury/src/coalitions.ts:31-70 | the coalition list of a valid spec is not empty, and an approver set reaches the spec's threshold if and only if it contains a listed coalition |
| `TreasurySpec.CompileOwners` | packages/weighted-treasury/src/evm.ts:27-37 | the compiled owners are the spec's, by address, without duplicates |
| `TreasurySpec.CompileAllowlist` | packages/weighted-treasury/src/evm.ts:39-46 | the compiled allowlist is the spec's, without duplicates |
| `TreasurySpec.CompileEvm` | packages/weighted-treasury/src/evm.ts:21-60 | compilation succeeds if and only if the spec is valid and expressible |
| `TreasurySpec.CompilationPreservesTheVerdict` | packages/weighted-treasury/src/judge.ts:10-29 | for every approver set, recipient and amount, compiled weights and allowlist give the verdict of `expectedSpendOutcome` on the spec |
| `BigEndian.FromToBytes` | packages/weighted-treasury/src/encoding.ts:3-9 | reading big-endian bytes inverts writing them |
| `BigEndian.ToFromBytes` | packages/weighted-treasury/src/encoding.ts:3-9 | writing inverts reading |
| `BigEndian.U256Checked` | packages/weighted-treasury/src/encoding.ts:3-9 | the four-word loop throws if and only if the value is out of range, and else writes its big-endian bytes |
| `BigEndian.U256Unchecked` | apps/ultimate-treasury/server/solana.ts:53-60 | for any bigint, four writes give its low 256 bits, big-endian, in two's complement |
| `BigEndian.UncheckedIsFaithfulIffItFits` | apps/ultimate-treasury/server/solana.ts:53-60 | reading the unchecked form gives the value back if and only if it is in [0, 2^256) |
| `BurnIntent.ParseMessage` | tools/frost-delegate/src/main.rs:158-214 | the cursor accepts exactly the framed messages and returns their fields |
| `BurnIntent.DecodeEncode` | apps/ultimate-treasury/server/solana.ts:97-108 | decoding the domain prefix plus the encoding of any fitting hook-free intent returns every field |
| `BurnIntent.HooksAreRefused` | tools/frost-delegate/src/main.rs:158-197 | a message with a non-empty hook is refused |
| `BurnIntent.AcceptedIsAnEncoding` | tools/frost-delegate/src/main.rs:158-214 | every accepted message is the encoding of a fitting hook-free intent |
| `BurnIntent.EncodingIsInjective` | apps/ultimate-treasury/server/solana.ts:97-108 | and of exactly one intent and salt |
| `IntentPolicy.Approves` | tools/frost-delegate/src/main.rs:406-414 | parse then check is the coordinator's verdict |
| `IntentPolicy.WordU128Reads` | tools/frost-delegate/src/main.rs:135-140 | a word fits 128 bits if and only if its full 256-bit value does, and is then read exactly |
| `IntentPolicy.PolicyMeansPermission` | tools/frost-delegate/src/main.rs:217-278 | on an encoded intent the byte checks hold if and only if the declarative policy permits it |
| `IntentPolicy.CoordinatorAcceptsExactlyThePermitted` | tools/frost-delegate/src/main.rs:135-278 | a message is accepted if and only if it encodes a hook-free intent the policy permits: full value in (0, cap], fee, expiry window, contracts, tokens, signer, recipient and caller |
| `IntentPolicy.AcceptedRecipientIsListed` | tools/frost-delegate/src/main.rs:261-271 | whatever the policy's shape, an accepted recipient is listed for the destination domain |
| `Base58.BytesToBase58` | apps/ultimate-treasury/server/solana.ts:37-49 | the two loops terminate with the base58 text |
| `Base58.Base58ToBytes32` | apps/ultimate-treasury/server/solana.ts:26-35 | the loop decodes or throws on a foreign character or overflow |
| `Base58.DecodeEncode` | apps/ultimate-treasury/server/solana.ts:24-49 | every 32-byte key survives the round trip, leading zeros and the zero key included |
| `Base58.EncodeDecode` | apps/ultimate-treasury/server/solana.ts:24-49 | an accepted text is the encoder's own if and only if its leading ones number the key's leading zero bytes |
| `JsonText.ReadQuoted` | packages/cre/src/evidence.ts:233-235 | reading a quoted string gives it back whatever follows, lone surrogates included (section 7 of RFC 8259) |
| `NumberText.ReadText` | packages/cre/src/evidence.ts:236-239 | reading a number's text gives the number back |
| `StableJson.WritesExactlyTheSupported` | packages/cre/src/evidence.ts:232-252 | a value is written if and only if nothing in it is undefined, non-finite or of an unsupported type |
| `StableJson.ReadBack` | packages/cre/src/evidence.ts:232-252 | reading a text gives the value with keys in order and leaves what follows: nesting is unambiguous |
| `StableJson.SortSorted` | packages/cre/src/evidence.ts:243-244 | distinct keys come out strictly increasing by UTF-16 code unit |
| `StableJson.SameTextIffSameValue` | packages/cre/src/evidence.ts:231-252 | two values have one text if and only if they are equal with objects taken as maps |
| `Decimal.CanonicalIsIdempotent` | packages/cre/src/evidence.ts:222-229 | a canonical text is its own canonical text and denotes the original number |
| `Decimal.CanonicalIffSameValue` | packages/cre/src/evidence.ts:222-229 | two decimal texts canonicalise equally if and only if they denote one rational |
| `Decimal.UnitsAreExact` | packages/weighted-treasury/src/judge.ts:31-36 | `units(v, d)` is a decimal text if and only if v >= 0, and then denotes exactly v/10^d and is already canonical |
| `IntegerText.IntRoundTrip` | packages/cre/src/evidence.ts:217-220 | integers survive the number model |
| `EvidenceToken.ValidationIsIdempotent` | packages/cre/src/evidence.ts:271-314 | validating a validated reference's own properties gives it back |
| `EvidenceToken.TokenIsMadeExactlyWhen` | packages/cre/src/evidence.ts:396-419 | a token is made if and only if reference, ttl in [1, 900], nonce and clock are valid and it is not too long |
| `EvidenceToken.TokenOpensExactlyInItsWindow` | packages/cre/src/evidence.ts:396-459 | through canonical text, seal, unseal and parse, a token issued at t0 opens at t if and only if t0-30 <= t < t0+ttl, with exactly the normalised reference, nonce and times |
| `EvidenceToken.UnknownKindNeverOpens` | packages/cre/src/evidence.ts:274-314 | a token sealed for an unknown kind is refused at every time |
| `EvidenceToken.OpenSpanIsBounded` | packages/cre/src/evidence.ts:449-455 | whatever the token, the moments at which it opens lie less than 930 seconds apart and give the same claims |
| `StubLedger.BuiltSwap` | apps/agent/src/kit-stub.ts:283-349 | a swap is built if and only if its tokens differ and the chain has a conduit, and is then bound to its own nonce |
| `StubLedger.ApprovalDecidesTheRule` | apps/agent/src/kit-stub.ts:434-443 | for distinct signers approval holds if and only if all are owners and the weighted rule holds |
| `StubLedger.ApprovalIsFaithfulExactlyToDistinctLists` | apps/agent/src/kit-stub.ts:437-442 | summing over the list as given agrees with the rule on every treasury if and only if no signer is repeated |
| `StubLedger.StubKit.constructor` | apps/agent/src/kit-stub.ts:164-166 | a new ledger is empty |
| `StubLedger.StubKit.Reset` | apps/agent/src/kit-stub.ts:173-177 | forgets everything |
| `StubLedger.StubKit.DeployTreasury` | apps/agent/src/kit-stub.ts:211-231 | each named chain gets a treasury with the charter's owners, threshold and allowlist, holding the seed; one record per chain is returned |
| `StubLedger.StubKit.SubmitApproved` | apps/agent/src/kit-stub.ts:464-488 | refuses in the source's order and changes nothing, or moves balances, nonce and counter together |
| `StubLedger.SubmitMovesExactly` | apps/agent/src/kit-stub.ts:470-481 | for every treasury and token: a success moves amountIn out and gained >= minOut in and nothing else; a failure nothing |
| `StubLedger.NoncesExecuteOnce` | apps/agent/src/kit-stub.ts:466-477 | over any run each nonce executes at most once per chain, and the used set is exactly the executed nonces |
| `StubLedger.IntentsExecuteOnce` | apps/agent/src/kit-stub.ts:119-146 | when requests carry their intent's nonce, no intent executes twice on a chain |
| `StubLedger.UsedMeansExecuted` | apps/agent/src/kit-stub.ts:467-467 | with an injective nonce, a request is refused as used if and only if its intent executed on that chain |
| `StubLedger.AgainExactlyUnderAFreshNonce` | apps/agent/src/kit-stub.ts:464-476 | once a request has executed, its intent executes again if and only if it comes under another, unused nonce, in time, with a key, and still covered |
| `StubLedger.ForeignNonceRepeats` | apps/agent/src/kit-stub.ts:464-488 | from an empty ledger: deploy, swap, and swap the same intent again under another nonce, for any charter, nonces and amount the seed covers twice |
| `StubLedger.BalancesStayNonNegative` | apps/agent/src/kit-stub.ts:471-481 | no run drives a balance below zero |
| `StubLedger.SwapsMakeNoMoney` | apps/agent/src/kit-stub.ts:455-481 | over any run of swaps 4*USDC + 5*EURC never rises and falls by at most 4 per executed swap |
| `StubLedger.WorthRisesExactlyWhen` | apps/agent/src/kit-stub.ts:454-462 | a submission raises that worth if and only if the venue has no price for it and it trades a cheaper token one to one for a dearer one |

## Left out

- FROST rounds, Ed25519 and ECDSA arithmetic, keccak and ABI encoding: calls into other libraries.
- HTTP, RPC, child processes and clocks: the environment's choice of reply. Disk writes succeed and job ids are fresh.
- Ledger device discovery and the `connection` variable: a step that succeeds or throws. The quote-expiry, owner and chain checks inside a call are part of that choice.
- `recordPendingMint` without an attestation: the pipeline never calls it so.
- Job details shown to the browser (labels, links, balances before and after) and error texts.
- Floating-point amounts in `validateSend` and `pickSource`: integers in micro-USDC. Whether a recipient is an address is a flag.
- SendValidation.CoordinatorDecidesTheRule: owner ids are distinct. In the source they are configured names or address prefixes.
- Non-integer weights.
- `JSON.parse` on texts that `stableStringify` does not write (white space, other escapes); arrays with holes; `toJSON`.
- Double rounding: a finite number is given by its shortest decimal, as `JSON.stringify` writes it.
- The commitment builders of evidence.ts: fixed field lists hashed through `stableStringify`.
- Address case in the stub ledger: addresses are compared lower-cased everywhere, so they are values. Receipts carry the transaction number instead of a hash, deployment records no operation hashes, and the derived treasury address is an argument.
- `buildEarnDepositRequest` and `buildFromPodsBytecode`: any request may be submitted in the model, so they would only add easy members.
- Squads compilation, Solidity contracts, mock-circle, user interfaces, ENS and subgraph scripts.
