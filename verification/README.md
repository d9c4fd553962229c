# b'AI'tcoin chain model

A Dafny 4.11 model of the parts of b'AI'tcoin that carry money or history, with proofs of what they
promise. `dafny verify dfyconfig.toml` checks all of it.

| part | files | source |
|---|---|---|
| cross-chain bridge | `Bridge`, `BridgeSafety`, `BridgeDuplicates`, `BridgeTheorems`, `BridgeClashes`, `BridgeAnswers`, `BridgeRefusals`, `BridgeManager`, `Authorization` | `baitcoin_bridge/manager.py`, `baitcoin_bridge/authorization.py` |
| Merkle roots, paths and anchors | `Merkle`, `MerkleTexts`, `Anchoring`, `AnchorProofs` | `baitcoin_bridge/anchor.py`, `baitcoin_bridge/manager.py` |
| Base58Check addresses | `Radix`, `Addresses` | `daemon_live.py` |
| explorer index | `Explorer`, `ExplorerLedger`, `ExplorerRuns`, `ExplorerTables`, `ExplorerEntries`, `ExplorerIndex` | `indices.py` |
| miner and its queues | `Mining`, `MiningSignatures`, `MiningClaims`, `MiningBlocks`, `MiningNode` | `baitcoin_miner.py`, `daemon_live.py` |
| block subsidy | `Coinbase` | `agents/chimera7_coinbase.py` |
| `.aipkg` packages | `Names`, `AiPkg`, `AiPkgTheorems`, `AiPkgArchives` | `baitcoin_ai/aipkg.py` |
| canonical JSON, numerals, UTF-8 | `Json`, `Text`, `Utf8` | the `json.dumps(...).encode()` calls of the above |

**How it is built.** Objects whose methods update fields are classes (`BridgeManager`, `AnchorProtocol`,
`BlockchAInIndex`, `Node`); loops are loops. Each such method is proved equal, on the whole object, to a
function on states (`Bridge.LockBait`, `Anchoring.AddStep`, `Explorer.IndexBlock`, `Mining.MineStep`, ...).
The theorems are about those functions and about every run made of them, so they hold of the methods. Every operation
of `BridgeManager` also keeps `Valid()`, which is the invariant below on the object.

**The bridge.** `BridgeSafety.Inv` is the invariant of every reachable state: each record and its event agree on
state, amount and agent; a lock's signatures have distinct signers, verify under those signers' keys over the event's own claim, and
reach the threshold exactly in the last two phases; the running totals are sums over the transfers; the
duplicate and pending indices are right; the Merkle leaves are exactly the locks' leaves, one for each lock record, and every
stored proof is the path of its leaf at lock time. `RunKeepsInv` proves it over every run. From it follow conservation, mint safety,
the order of states, and the limits. `BridgeAnswers` follows a request through the run: what a lock or burn was asked for is what its record
keeps and what mint, refund and release answer. `BridgeRefusals` says which requests are refused and why.

**Hashes.** SHA-256 digests are data, so two digests are equal only if what was hashed is equal. Where a caller hands in texts
in place of digests, in `verify_proof`, hashing is a function on texts, and what is needed is that the texts hashed there
collide with none of the batch. Signature checks, Base64, the address checksum, the mining target and `json.loads` are parameters.

**Where a promise fails.** The code is modelled as it is; each promise that is false of it has its exact condition
or a family of inputs on which it fails:

- Locked is at least minted exactly when the signature threshold is positive (`ConservationIff`): with a threshold of
  zero a burn event, which has no signatures, can be minted.
- Requests of one agent never share a duplicate key (`SameAgentKeys`). Those of two agents do exactly when one id is the other,
  a colon and a decimal numeral, ending there or going on with a colon (`SharesKeyIff`). On a given bridge some run refuses a
  request of the one as a lock of the other exactly when that numeral is an amount some chain admits, either id being the longer
  (`RefusedForOtherIff`). Where no such ids meet, the duplicate check refuses exactly repeated requests (`DuplicateExact`).
- An agent's daily volume is the sum of its locks of the day exactly when it had locked nothing of that day before the last
  change to it (`VolumeExactIff`). So it is while the clock does not return to an earlier day (`DailyVolume`), and a clock that
  goes back forgets (`ClockBackForgets`). What is recorded never exceeds the limit, whatever the clock does.
- A relayer is taken to have signed when its name is a stored signer, or its name and a colon begin one
  (`HasSignerExactly`); in the second case it is refused without having signed (`ShorterNameRefused`).
- The documentation promises that all events are in the Merkle tree (`baitcoin_bridge/manager.py:31`). An event's leaf is in it
  exactly when the event is a lock (`InTreeIffLock`): no burn is. There are as many leaves, all different, as lock records
  (`LeavesCountLocks`).
- `verify_proof` folds with the running hash always on the left. It accepts a generated path exactly on a left
  spine, so among distinct leaves only for the first (`LeftFoldReachesRoot`, `LeftFoldOnlyFirst`, `GeneratedProofVerdict`).
  The module's documentation (`baitcoin_bridge/anchor.py:19-22`) promises that a valid proof shows a block. Leaf and siblings are
  joined as they come, without a check of their lengths, so accepted are exactly (`AcceptedExactly`) the root with an empty path
  (`RootProvesItself`), and the proofs whose first two texts joined are what a left-spine node is the digest of, cut anywhere
  (`CutLeafAccepted`; with an empty leaf, `EmptyLeafAccepted`), followed by that node's path. For a leaf that has the form of a
  digest, 64 hex digits, these are the left-spine nodes with their paths (`DigestLeafAccepted`), and the leaf is a header of
  the batch exactly when the path is as long as the tree is high (`DigestLeafIsHeader`).
- A chain holds every header added exactly when no anchoring met its own id in use (`NothingLostIff`, `AnchorKeepsAllIff`).
  Rising heights give new ids (`NothingLost`); a repeated height loses a header (`SameHeightLosesHeader`).
- A Merkle root fixes the list only together with its length (`RootBinds`, `RootHidesDoubledLeaf`).
- Indexing a transaction keeps every balance equal to the address's unspent outputs in two cases only (`IndexTxBalancedIff`): the
  fee line (`indices.py:398`) does not raise and the credit loop, which credits the last output's amount to every output address,
  credits each what it was paid; or the fee line raises, after the outputs have moved and before any credit, and the outputs
  pay nothing. The repository's own `TransactionInput` (`baitcoin_core/blockchain/block.py:34-48`) lacks the attribute that line
  reads, so the model's input carries it as an option; with that class a transaction that spends keeps balances only by
  paying nothing (`PlainInputs`). Over whole runs of the index: `RunBalancesIff`.
- Incremental indexing gives a rebuild's tables exactly when nothing before the block raises and its hash is new, or something
  before it raises and its hash is already listed (`IncrementalIsRebuild`). A raise leaves its block half indexed, and later calls skip the block
  (`RaisedBlockIsSkipped`).
- The queue refuses only signatures still pending. Each signature is mined or pending at most once, all the way, exactly when no
  accepted broadcast repeats a mined one (`SigsOnceIff`); any broadcast can be mined twice (`SameSigMinedTwice`). An accepted
  broadcast misses the next block exactly when 5000 more are accepted before it (`InFirstBlockAfter`).
- The faucet keeps one claim an agent, paid or not. A claim is paid by the next block, once, unless the same agent is accepted again
  before that block: then the earlier claim is never paid (`ClaimPaidIff`).
- An address's first sighting is kept as 0 until there is one, so one at time 0 is forgotten at the next: it is the earliest exactly if some
  touch is before 0, none is at 0, or the last is (`FirstSeenIff`).
- The faucet accepts addresses of any length from 20 body characters on; the onboarding and transfer patterns stop at 40
  (`AcceptedMatchesIff`, `LongAddressAccepted`).
- An archive entry whose name ends in a slash is neither listed nor hashed (`FolderEntryUnseen`); every other file is bound by
  the manifest (`TableBindsFiles`).

**Code and documentation.** The bridge's docstring (`baitcoin_bridge/manager.py:22-27`) shows TIMED_OUT and a timeout on
refunds; no operation reaches such a state and `refund` checks no time. The model follows the code.

## Model

| member | source | states |
|---|---|---|
| Merkle.ComputeMerkleRoot | baitcoin_bridge/anchor.py:339-358 | the loop's root and list of levels are those of the level-by-level tree that doubles the last node of an odd level |
| Merkle.ClimbLevel | baitcoin_bridge/anchor.py:369-385 | one pass gives the level above and, when the index lies in the level, its mate |
| Merkle.ComputeProofPath | baitcoin_bridge/anchor.py:361-388 | the loop returns the mates on the way up from the index, nothing for an index outside the list |
| Merkle.Inclusion | baitcoin_bridge/manager.py:241-268 | folding the generated path by the parity of the index gives the root for every list and index; the path has the tree's height |
| Merkle.RootBinds | baitcoin_bridge/manager.py:774-789 | two lists with one root are equal if and only if their lengths are |
| Merkle.RootHidesDoubledLeaf | baitcoin_bridge/anchor.py:348-355 | doubling the last leaf of an odd list of more than one leaf keeps the root |
| Merkle.PathBinds | baitcoin_bridge/anchor.py:339-388 | a path of the tree's height that folds by index to the root starts at the leaf stored there and is that leaf's own path |
| Merkle.LeftFoldReachesRoot | baitcoin_bridge/anchor.py:299-304 | the always-left fold of a generated path reaches the root if and only if every climb is from the left or beside an equal node |
| Merkle.LeftFoldOnlyFirst | baitcoin_bridge/anchor.py:299-304 | among distinct leaves that is so for index 0 and for no other |
| Anchoring.AnchorProtocol.constructor | baitcoin_bridge/anchor.py:98-110 | a new protocol has no anchors and nothing pending |
| Anchoring.AnchorProtocol.AddBlockHeader | baitcoin_bridge/anchor.py:112-146 | appends the header hash and height, and anchors once the interval is reached; the whole new state and the answer |
| Anchoring.AnchorProtocol.Anchor | baitcoin_bridge/anchor.py:148-199 | stores one point for each chain under its id, replacing a point with that id, empties the pending lists and counts the batch |
| Anchoring.AnchorAnswersStored | baitcoin_bridge/anchor.py:148-199 | anchoring answers the root, count, heights and ids of points it has stored, one for each chain, over the headers that were pending |
| Anchoring.AnchorsAtNext | baitcoin_bridge/anchor.py:130-146 | the height answered as the next anchoring is the one at which consecutive adds anchor, and not before |
| Anchoring.AnchorProtocol.VerifyProof | baitcoin_bridge/anchor.py:286-318 | for texts of any length, valid exactly when the fold over texts gives the proof's root and the named anchor stores that root |
| Anchoring.RunCurrentHeight | baitcoin_bridge/anchor.py:135 | over every run the current height is that of the last header added |
| Anchoring.AnchorIdInjective | baitcoin_bridge/anchor.py:171-172 | anchor ids are equal only for equal chain, first and last height |
| Anchoring.NothingLost | baitcoin_bridge/anchor.py:130-190 | over every run with rising heights each chain's batches joined in order, then the pending list, are exactly the headers added; all chains hold the same batches, each under its own root |
| Anchoring.PendingBounded | baitcoin_bridge/anchor.py:134-187 | over every run fewer than the interval stay pending and the anchored counter accounts for the rest |
| Anchoring.AnchorKeepsAllIff | baitcoin_bridge/anchor.py:171-184 | a chain keeps all its headers and gains the batch if and only if its anchor id was unused |
| Anchoring.RunWellNamed | baitcoin_bridge/anchor.py:171-184 | the condition under which that equivalence is stated holds in every reachable state |
| Anchoring.NothingLostIff | baitcoin_bridge/anchor.py:112-190 | over every run, whatever the heights, a chain holds exactly the headers added, in order, if and only if no anchoring met its own id already in use; otherwise it holds fewer |
| Anchoring.SameHeightLosesHeader | baitcoin_bridge/anchor.py:171-184 | two batches at one height: the first header is gone |
| Anchoring.GeneratedProofVerdict | baitcoin_bridge/anchor.py:286-318 | verify_proof's verdict on the texts of a generated proof: accepted exactly on a left spine, for distinct headers exactly at index 0 |
| Merkle.LeftFoldSolutions | baitcoin_bridge/anchor.py:299-304 | on digests, leaf and path fold leftwards to the root if and only if they lie on the left spine or start inside the first leaf |
| MerkleTexts.TextFoldOfHexes | baitcoin_bridge/anchor.py:299-304 | on the texts of digests the fold over texts gives the text of the left fold |
| MerkleTexts.TextFoldSolutions | baitcoin_bridge/anchor.py:298-306 | for texts of any length, without collisions, the fold gives the root's text if and only if the leaf is that text and the path empty, or leaf and first sibling joined are what a left-spine node is the digest of and the rest is that node's path |
| MerkleTexts.DigestLeafSolutions | baitcoin_bridge/anchor.py:298-306 | for a leaf of 64 hex digits, if and only if leaf and path are the texts of a left-spine node and its path |
| AnchorProofs.AcceptedExactly | baitcoin_bridge/anchor.py:286-318 | over every run, for texts of any length, verify_proof accepts exactly the proofs that name a stored point and its root and climb that batch's left spine in the sense of the fold over texts |
| AnchorProofs.DigestLeafAccepted | baitcoin_bridge/anchor.py:286-318 | with a leaf of 64 hex digits, exactly those that give the texts of a left-spine node and its path |
| AnchorProofs.DigestLeafIsHeader | baitcoin_bridge/anchor.py:298-306 | such a leaf is the digest of a header of the batch, and then of its first, if and only if the path is as long as the tree is high |
| AnchorProofs.CutLeafAccepted | baitcoin_bridge/anchor.py:298-306 | what any left-spine node is the digest of, cut in two anywhere, gives an accepted leaf and first sibling |
| AnchorProofs.EmptyLeafAccepted | baitcoin_bridge/anchor.py:298-306 | for two anchored headers the empty leaf is accepted with a path as long as the tree is high, though it is no header's digest |
| AnchorProofs.RootProvesItself | baitcoin_bridge/anchor.py:299-318 | every stored root is accepted as a leaf of its own batch with an empty path, and is no header where the batch has two or more |
| Authorization.Verify | baitcoin_bridge/authorization.py:78-88 | the loop answers as the specification, the first error in list order included |
| Authorization.VerifyOneIff | baitcoin_bridge/authorization.py:61-76 | a signature is accepted if and only if its signer has a key and it decodes to 64 bytes that verify under that key over the claim's bytes |
| Authorization.VerifyAllGenuine | baitcoin_bridge/authorization.py:78-88 | a list is accepted, and given back, if and only if every signature is genuine in that sense and no signer appears twice |
| Authorization.SignableIff | baitcoin_bridge/authorization.py:16-36 | a claim has bytes to sign if and only if both ids are non-empty and chain and amount are positive; the bytes begin with the preamble |
| Authorization.SigningBytesUnambiguous | baitcoin_bridge/authorization.py:16-36 | two claims that pass the checks have the same signing bytes only if event, transfer, chain, amount and proof list are all equal |
| Json.PrintPrefix | baitcoin_bridge/authorization.py:28-36 | printed values are a prefix code: what follows one never changes how it reads (section 7 of RFC 8259 for the strings) |
| Json.PrintInjective | baitcoin_ai/aipkg.py:33-34 | two values print the same only if they are the same |
| Text.DecimalIntPrefix | baitcoin_bridge/authorization.py:32-34 | a signed decimal numeral can be read back off any text that does not go on with a digit |
| Utf8.EncodeInjective | baitcoin_bridge/authorization.py:36 | two texts have the same UTF-8 bytes only if they are equal |
| BridgeManagers.BridgeManager.constructor | baitcoin_bridge/manager.py:171-196 | a new manager is the initial state and meets the invariant |
| BridgeManagers.BridgeManager.Start | baitcoin_bridge/manager.py:171-177 | no manager without an authorization registry unless the environment allows insecure local use |
| BridgeManagers.BridgeManager.ResetDailyVolume | baitcoin_bridge/manager.py:198-203 | a new day clears the volumes, the same day changes nothing |
| BridgeManagers.BridgeManager.CheckRateLimit | baitcoin_bridge/manager.py:205-210 | after that reset, whether the agent's volume and the amount are within the limit |
| BridgeManagers.BridgeManager.CheckPendingLimit | baitcoin_bridge/manager.py:212-223 | the loop's count decides exactly whether the sum of the agent's live transfers is below the limit |
| BridgeManagers.BridgeManager.LockBait | baitcoin_bridge/manager.py:272-338 | the whole new state and answer of a lock, each refusal in the order of the checks; keeps the invariant for a new id |
| BridgeManagers.BridgeManager.PrepareLock | baitcoin_bridge/manager.py:340-383 | appends the leaf; event and record of the lock, the proof computed on the extended list |
| BridgeManagers.BridgeManager.RecordLock | baitcoin_bridge/manager.py:384-408 | stores both, the two duplicate entries, the total and the volume |
| BridgeManagers.BridgeManager.CheckRelayer | baitcoin_bridge/manager.py:444-463 | which refusal, if any, the authorization checks give |
| BridgeManagers.BridgeManager.SubmitProof | baitcoin_bridge/manager.py:410-493 | the whole new state and answer of a proof submission, each refusal in the order of the checks; keeps the invariant |
| BridgeManagers.BridgeManager.AcceptProof | baitcoin_bridge/manager.py:465-493 | adds the signature unless its signer has one, moves event and record to the phase the count calls for |
| BridgeManagers.BridgeManager.MintWrapped | baitcoin_bridge/manager.py:495-555 | the whole new state and answer of a mint; a repeated mint changes nothing; keeps the invariant |
| BridgeManagers.BridgeManager.BurnWrapped | baitcoin_bridge/manager.py:557-633 | the whole new state and answer of a burn; keeps the invariant for a new id |
| BridgeManagers.BridgeManager.ReleaseBait | baitcoin_bridge/manager.py:635-674 | the whole new state and answer of a release; keeps the invariant |
| BridgeManagers.BridgeManager.Refund | baitcoin_bridge/manager.py:676-716 | the whole new state and answer of a refund; keeps the invariant |
| BridgeManagers.BridgeManager.Pause | baitcoin_bridge/manager.py:718-726 | sets the flag and nothing else; keeps the invariant |
| BridgeManagers.BridgeManager.GetMerkleRoot | baitcoin_bridge/manager.py:774-789 | the root of the leaves held |
| BridgeSafety.StepKeepsInv | baitcoin_bridge/manager.py:272-726 | every operation keeps the invariant |
| BridgeSafety.RunKeepsInv | baitcoin_bridge/manager.py:272-726 | every reachable state meets the invariant |
| BridgeSafety.StepMoves | baitcoin_bridge/manager.py:433-482 | a submission, mint, release or refund changes nothing or makes one allowed move of one record and its event, totals following |
| BridgeSafety.RefusalsChangeNothing | baitcoin_bridge/manager.py:301-338 | a refused operation changes nothing, except that a refused lock may start a new day |
| BridgeSafety.TxHashCheckNeverRefuses | baitcoin_bridge/manager.py:336-338 | with new ids the transaction-hash check never refuses |
| BridgeSafety.AppendedSigner | baitcoin_bridge/manager.py:450-468 | the prefix test on stored signatures keeps signers pairwise distinct |
| BridgeTheorems.Conservation | baitcoin_bridge/manager.py:392-545 | over every run total locked is total minted plus the refunded plus the live lock amounts, so locked is at least minted |
| BridgeTheorems.BurnThenMintMints | baitcoin_bridge/manager.py:528-545 | with a threshold of zero or less a burn followed by a mint of its event mints what was never locked |
| BridgeTheorems.ConservationIff | baitcoin_bridge/manager.py:28-32 | for a bridge with some chain, minted never exceeds locked on any run if and only if the threshold is positive |
| BridgeTheorems.MintSafety | baitcoin_bridge/manager.py:445-538 | every minted event is a lock with at least the threshold of signatures, from distinct signers; where a registry is set each verifies under its signer's registered key over that event's id, transfer, chain, amount and proof |
| BridgeAnswers.StoredSignaturesGenuine | baitcoin_bridge/manager.py:445-468 | over every run with a registry each signature stored decodes to 64 bytes that verify under its signer's key over the bytes of its event's claim |
| BridgeAnswers.MintedCouldBeSigned | baitcoin_bridge/authorization.py:16-36 | no event for a chain or an amount that is not positive is ever minted under a registry |
| BridgeAnswers.SubmitAcceptedIff | baitcoin_bridge/manager.py:433-468 | a proof is accepted if and only if the event is live, the proof is the stored one, the signer is not taken to have signed and the signature is genuine |
| BridgeAnswers.SubmitStores | baitcoin_bridge/manager.py:464-493 | an accepted proof adds that signature and no other, and answers the count and phase then stored |
| BridgeAnswers.LockStores | baitcoin_bridge/manager.py:340-408 | an accepted lock stores agent, amount, fee, chain, recipient, time and proof as asked, and answers what it stored |
| BridgeAnswers.LockKept | baitcoin_bridge/manager.py:301-716 | over every run the transfer of an accepted lock keeps what it was asked for |
| BridgeAnswers.MintAnswersRequest | baitcoin_bridge/manager.py:510-555 | over every run the first mint and each repetition answer the event, amount, chain and recipient that lock was asked for, or that signatures are missing |
| BridgeAnswers.RefundAnswersRequest | baitcoin_bridge/manager.py:686-716 | over every run a refund releases and answers the amount that lock was asked for, exactly from the two early phases |
| BridgeAnswers.BurnKept | baitcoin_bridge/manager.py:577-716 | over every run the transfer of an accepted burn keeps what it was asked for |
| BridgeAnswers.ReleaseAnswersRequest | baitcoin_bridge/manager.py:648-674 | over every run a release answers and releases the amount that burn was asked for, to the burning agent |
| BridgeAnswers.LocksAreNotReleased | baitcoin_bridge/manager.py:648-653 | a release is accepted if and only if the event is a burn |
| BridgeAnswers.TotalsAreBooked | baitcoin_bridge/manager.py:392-701 | over every run each running total is the sum of the amounts its operations answered |
| BridgeAnswers.FeeExact | baitcoin_bridge/manager.py:225-227 | the fee is the one whole number with 10000 fees at most amount times rate and less than 10000 more, towards zero for negative products |
| BridgeAnswers.PausedAcceptsNothing | baitcoin_bridge/manager.py:301-302 | over every run, while the last word was pause no lock and no burn is accepted or changes anything; otherwise a burn for a known chain is accepted |
| BridgeRefusals.RequestsAnswered | baitcoin_bridge/manager.py:301-694 | after every run a request is refused if and only if it breaks a rule, and for the first it breaks in the order of the checks |
| BridgeRefusals.DirectionNames | baitcoin_bridge/manager.py:229-239 | the four named directions, and the numbered form of all others |
| BridgeRefusals.DirectionTells | baitcoin_bridge/manager.py:229-239 | the direction of a lock or a burn determines which it is and over which chain |
| BridgeTheorems.MintedBytesDiffer | baitcoin_bridge/authorization.py:16-36 | the bytes signed for two different minted events differ |
| BridgeTheorems.LockEffect | baitcoin_bridge/manager.py:384-395 | an accepted lock adds one record under the new id and its amount to the day's volume, within the limit; a refused one adds neither |
| BridgeTheorems.StepOrder | baitcoin_bridge/manager.py:437-707 | a step leaves a transfer's phase or takes it along one allowed move, and never changes its amount |
| BridgeTheorems.RunOrder | baitcoin_bridge/manager.py:437-707 | over every run phases only move forward; minted, refunded and completed are never left |
| BridgeTheorems.NeverMintedAndRefunded | baitcoin_bridge/manager.py:690-707 | no transfer is minted at one moment of a run and refunded at another |
| BridgeTheorems.PhasesTrackSignatures | baitcoin_bridge/manager.py:471-543 | record and event have one phase; PROOF_SUBMITTED exactly for a live lock at the threshold; no refunded lock reached it; burns are burned or completed |
| BridgeTheorems.PendingLimit | baitcoin_bridge/manager.py:212-223 | no agent ever has more live transfers than the limit |
| BridgeTheorems.NoDuplicateLocks | baitcoin_bridge/manager.py:322-388 | no two locks share agent, amount, recipient and chain |
| BridgeDuplicates.SameAgentKeys | baitcoin_bridge/manager.py:323-325 | keys of one agent, colons or not, are equal if and only if the requests are |
| BridgeDuplicates.SharesKeyIff | baitcoin_bridge/manager.py:323-325 | two different agents have requests with one key if and only if one id is the other, a colon and a decimal numeral, ending there or going on with a colon |
| BridgeDuplicates.DedupKeyExact | baitcoin_bridge/manager.py:323-325 | between ids that do not clash so, keys are equal if and only if the requests are |
| BridgeDuplicates.ColonFreeNeverClash | baitcoin_bridge/manager.py:323-325 | ids without colons never clash |
| BridgeDuplicates.ColonMakesKeysCollide | baitcoin_bridge/manager.py:323-325 | two different requests with one key |
| BridgeDuplicates.DuplicateByKey | baitcoin_bridge/manager.py:322-327 | in every reachable state a request no earlier check refuses is answered as a duplicate of t if and only if t is a lock with its key |
| BridgeDuplicates.ClashRefusesOther | baitcoin_bridge/manager.py:322-388 | for any two clashing ids and a bridge that admits the amounts, a lock of the shorter makes a request of the longer a duplicate |
| BridgeClashes.DuplicateExact | baitcoin_bridge/manager.py:308-388 | over every run where no other agent with a lock clashes by an amount some chain admits, it is answered as a duplicate of t if and only if t is the lock of that same request |
| BridgeClashes.RefusedForOtherIff | baitcoin_bridge/manager.py:308-388 | on a given bridge some run refuses a request of one agent as another's lock if and only if their ids clash, either being the longer, by an amount some chain and the limits admit |
| BridgeClashes.RunAdmitted | baitcoin_bridge/manager.py:308-318 | over every run each lock's amount is within its chain's bounds and the daily limit, and no recorded volume is negative |
| BridgeTheorems.HasSignerExactly | baitcoin_bridge/manager.py:450-468 | the test for a second signature succeeds if and only if some signer is the name, or goes on from it with a colon, or the name runs on from the signer into the signature text; the last never for signatures without colons |
| BridgeTheorems.ShorterNameRefused | baitcoin_bridge/manager.py:450-451 | once a signer whose name goes on with a colon has signed, the relayer of the shorter name is refused as a duplicate |
| BridgeTheorems.VolumeExactIff | baitcoin_bridge/manager.py:198-395 | over every run an agent's volume is the sum of its locks of the day if and only if it had locked nothing of that day before the last change to it; it is never more, and never recorded above the limit |
| BridgeTheorems.DailyVolume | baitcoin_bridge/manager.py:198-395 | while the clock does not return to an earlier day, every agent's volume is the sum of its locks of the day and within the limit |
| BridgeTheorems.NewDayExactIff | baitcoin_bridge/manager.py:198-210 | in every reachable state, a change to another day leaves an agent's volume equal to the sum of its locks of that day if and only if it has locked nothing on it |
| BridgeTheorems.ClockBackForgets | baitcoin_bridge/manager.py:198-210 | a run whose clock goes back a day and returns ends with volume zero beside a lock of that day |
| BridgeTheorems.LockReceiptFolds | baitcoin_bridge/manager.py:365-408 | leaf, index and proof a lock returns fold to the root right after the call |
| BridgeTheorems.InTreeIffLock | baitcoin_bridge/manager.py:356-385 | over every run an event has its leaf in the tree if and only if it is a lock |
| BridgeTheorems.LeavesCountLocks | baitcoin_bridge/manager.py:365-384 | over every run there are as many leaves, all different, as lock records |
| BridgeTheorems.MintedIsAnchored | baitcoin_bridge/manager.py:365-379 | every minted event's stored proof folds to the root of the leaves up to its own |
| BridgeTheorems.LeftFoldOnlyFirstLock | baitcoin_bridge/anchor.py:299-304 | on the manager's leaves the always-left fold reaches the root for the first lock only |
| Addresses.LettersSpellAlphabet | daemon_live.py:463 | the letter ranges used in the proofs spell the 58-character alphabet |
| Addresses.ToBase58 | daemon_live.py:32-36 | the divmod loop gives one '1' for each leading zero byte, then the base-58 digits |
| Addresses.FaucetValidateAddr | daemon_live.py:456-473 | the decoding loop accepts exactly when prefix, length, letters and checksum are right |
| Addresses.ByteLength | daemon_live.py:467 | (bit_length + 7) // 8 is the number of base-256 digits |
| Addresses.DecodeBase58 | daemon_live.py:32-36 | decoding inverts encoding on every byte string, leading zeros included |
| Addresses.Base58Decode | daemon_live.py:462-470 | encoding inverts decoding on every text over the alphabet |
| Addresses.AcceptsExactly | daemon_live.py:456-471 | accepted are exactly the Base58Check texts with at least 20 characters after the prefix |
| Addresses.PatternExactly | daemon_live.py:661 | the pattern matches exactly the prefix with 20 to 40 letters of the alphabet, one newline at the end let through |
| Addresses.AcceptedMatchesIff | daemon_live.py:661 | an accepted address matches the pattern if and only if it has at most 40 body characters |
| Addresses.LongAddressAccepted | daemon_live.py:456-471 | some accepted address does not match |
| Addresses.BaitAddressValid | daemon_live.py:113-117 | every address made from a 20-byte hash has a body of exactly 36 characters, is accepted and matches |
| Coinbase.RewardsAgree | agents/chimera7_coinbase.py:14-37 | the two reward formulas agree at every height, past 64 halvings too |
| Coinbase.SubsidyFalls | agents/chimera7_coinbase.py:8-15 | the subsidy never rises and is zero exactly from height 6,930,000 on |
| Coinbase.SupplyCapped | agents/chimera7_coinbase.py:8-15 | the sum of subsidies is at most 2,099,999,997,690,000 sats, reached exactly from height 6,930,000 on |
| Coinbase.SubsidyHalves | agents/chimera7_coinbase.py:8-15 | the subsidy is 50 coins for the first 210,000 blocks and half the earlier one, rounded down, 210,000 blocks on |
| Coinbase.RewardsCapped | agents/chimera7_coinbase.py:8-37 | whatever the fees, what either reward pays beyond them adds up to at most the cap over all heights, reached exactly from height 6,930,000 |
| Explorer.IncrementalIsRebuild | indices.py:253-312 | rebuilding, indexing the next block and updating confirmations gives the tables of rebuilding the extended chain if and only if either no earlier block raises and the hash is new, or one does and the hash is listed; where nothing raises the last height agrees too |
| Explorer.RaisedBlockIsSkipped | indices.py:302-398 | a raise keeps the block and the transactions before it, and every later call for the block does nothing |
| ExplorerLedger.ChainSettles | indices.py:365-451 | the money tables after a chain are those after the transactions its blocks reach, in order, up to and with the one that raises |
| ExplorerLedger.UtxoExact | indices.py:374-396 | after any history, raises included, the UTXO set is exactly the outputs created and neither spent nor rewritten since |
| ExplorerRuns.RunFollowsHistory | indices.py:253-312 | over every run of rebuilds, new blocks and confirmation updates the index lists exactly the blocks started since the last rebuild, and its money tables are those of their transactions |
| ExplorerRuns.RunUtxoExact | indices.py:253-396 | over every such run the UTXO set is exactly the outputs created and not spent since, in the history since the last rebuild |
| ExplorerRuns.RunBalancesIff | indices.py:374-440 | over every such run with new ids, no negative amounts and harmless coinbase inputs, balances are the sums of unspent outputs after every transaction if and only if each transaction keeps them |
| ExplorerRuns.KnownBlockIgnored | indices.py:302-306 | a block is ignored if and only if one with its hash was started since the last rebuild, raised or not |
| ExplorerTables.RunListsAddress | indices.py:425-440 | over every run an address's list is the ids of the transactions of the history that paid it and did not raise, in order, once for each output paying it; its entry's received sum, count, distinct ids and times are theirs, and an address none paid has neither |
| ExplorerTables.FirstSeenIff | indices.py:437-438 | the first sighting kept is the earliest if and only if some touch is before 0, none is at 0, or the last is |
| ExplorerTables.LastSeenIsLatest | indices.py:439-440 | the last sighting kept is the latest, 0 for none above it |
| ExplorerTables.FirstsExact | indices.py:435-436 | the ids kept for an address are those of its list, each once, in the order of their first appearance |
| ExplorerTables.RunListsAgent | indices.py:443-451 | over every run an agent's list is the ids of its transactions that did not raise, in order, and its address the first one paid by the first of them that pays; the empty id has neither |
| ExplorerTables.RunNames | indices.py:445-451 | over every run an address bears the name of the last agent to have taken it as its address |
| ExplorerTables.RunBooks | indices.py:380-433 | over every run no balance is below received less sent, none is negative while last outputs are not, and while balances are right they are that difference |
| ExplorerEntries.RunListsBlocks | indices.py:314-363 | over every run the tables by hash and by height list exactly the last block started there, with its fields, ids, total, last coinbase reward and the interval to the block its header names |
| ExplorerEntries.RunListsTxs | indices.py:398-422 | over every run the transaction table lists exactly the last transaction of each id that did not raise, with its block, sums, labels, fee, and confirmations counted from the last height seen |
| ExplorerEntries.RunCounts | indices.py:273-422 | over every run the counters are the blocks started and the transactions that did not raise |
| ExplorerEntries.RunLastHeight | indices.py:284-311 | over every run the last height is the greatest of the last rebuild that returned and the new blocks indexed since |
| ExplorerEntries.AnswersCount | indices.py:295-312 | a new block answers how many transactions it added to the count |
| ExplorerEntries.TotalSplits | indices.py:388-396 | a total of outputs is what one address is paid and the total of the others |
| ExplorerEntries.InputTotalIff | indices.py:398 | the fee line raises if and only if some input has no amount; otherwise it adds them up |
| ExplorerLedger.SpendBalanced | indices.py:380-387 | spending keeps balances equal to the unspent sums, and the clamp at zero never acts |
| ExplorerLedger.IndexTxBalancedIff | indices.py:374-433 | indexing a new transaction keeps every balance equal to its unspent sum if and only if the fee line does not raise and the credits are exact, or it raises and nothing was paid |
| ExplorerLedger.PlainInputs | indices.py:398 | with inputs that have no amount, a transaction keeps balances if and only if it has no inputs and exact credits, or pays nothing |
| ExplorerLedger.SettleBalancedIff | indices.py:374-433 | of the transactions that do not raise, those with exact credits and no others keep balances |
| ExplorerLedger.EqualOutputsExact | indices.py:425-433 | outputs of one amount, a single output included, are credited exactly |
| ExplorerLedger.UnequalOutputsMiscredited | indices.py:425-433 | two addresses paid different amounts are not |
| ExplorerLedger.BalancesExactIff | indices.py:374-433 | over every orderly history, balances are exact after each transaction if and only if each transaction keeps them |
| ExplorerIndexes.BlockchAInIndex.constructor | indices.py:215-234 | a new index is empty |
| ExplorerIndexes.BlockchAInIndex.SpendInputs | indices.py:374-387 | the input loop: outpoints removed, owners debited |
| ExplorerIndexes.BlockchAInIndex.CreateOutputs | indices.py:388-396 | the output loop: outpoints written, addresses and total |
| ExplorerIndexes.BlockchAInIndex.SumInputs | indices.py:398 | the sum of the inputs' amounts, or a raise when one has none |
| ExplorerIndexes.BlockchAInIndex.IndexTransaction | indices.py:367-451 | the whole new index after one transaction, or after the part done before a raise |
| ExplorerIndexes.BlockchAInIndex.CreditOutputs | indices.py:425-440 | the credit loop over all output addresses |
| ExplorerIndexes.BlockchAInIndex.RecordAgent | indices.py:443-451 | the agent lists and the agent's first address |
| ExplorerIndexes.BlockchAInIndex.ListBlock | indices.py:316-363 | the block's entry, with reward, total and interval |
| ExplorerIndexes.BlockchAInIndex.SumBlock | indices.py:330-339 | ids, total output and reward of a block |
| ExplorerIndexes.BlockchAInIndex.IndexBlockInPlace | indices.py:314-453 | the whole new index after a block, or the raise |
| ExplorerIndexes.BlockchAInIndex.RebuildAll | indices.py:253-285 | the whole new index after a rebuild |
| ExplorerIndexes.BlockchAInIndex.IndexNext | indices.py:295-312 | the whole new index after an incremental call; a known hash changes nothing |
| ExplorerIndexes.BlockchAInIndex.RefreshConfirmations | indices.py:572-577 | every confirmation redated, nothing else |
| ExplorerIndexes.BlockchAInIndex.GetAddressUtxos | indices.py:584-591 | exactly the address's unspent outputs, their amounts adding up to the sum the balance theorems use |
| Mining.MineLinks | baitcoin_miner.py:25-89 | mining adds one block on top, under a new key, linked to its predecessor's hash, its hash that of its own header; the nonce is the first to meet the target, or 201 |
| Mining.EarlierBlocksStay | baitcoin_miner.py:85-89 | no run changes a block already there |
| Mining.TipFixesHeaders | baitcoin_miner.py:33-84 | two chains over one base with equal tip hash have equal headers and hashes throughout |
| Mining.MineLogs | baitcoin_miner.py:51-100 | a mined block takes all pending broadcasts and all waiting identities, in order, into the log |
| Mining.RunAccounts | baitcoin_miner.py:51-97 | over every run the broadcasts in blocks, pending and dropped are together exactly those accepted |
| Mining.ExactlyOncePlace | baitcoin_miner.py:51-97 | over every run each accepted broadcast is in exactly one of blocks, queue and dropped, and once |
| Mining.MinedListFollowsLog | baitcoin_miner.py:93-97 | the stored mined list grows by exactly the transfers the blocks gain |
| Mining.InFirstBlockAfter | daemon_live.py:477-495 | an accepted broadcast is in the first block mined after it if and only if fewer than 5000 were accepted in between; otherwise, and only then, the cap has dropped it |
| MiningSignatures.SigsOnceIff | daemon_live.py:485-491 | over every run each signature is mined or pending at most once, at every moment, if and only if no accepted broadcast repeats a mined one |
| MiningSignatures.BlocksHoldSigsOnce | baitcoin_miner.py:54-61 | then no signature is twice in the blocks |
| MiningSignatures.SameSigMinedTwice | daemon_live.py:485-491 | any broadcast, queued again once it is mined, is accepted and mined again |
| Mining.RunAgents | baitcoin_miner.py:62-71 | over every run each registered identity is in at most one block, and mined or waiting, never both |
| Mining.IdentitiesInNextBlock | baitcoin_miner.py:62-100 | the next block takes exactly the waiting identities and none waits after it |
| MiningClaims.MinePays | baitcoin_miner.py:41-92 | a mined block pays each agent with a queued claim that claim, once, and no other agent; afterwards no claim is queued and the paid ones name the block and the time |
| MiningClaims.ClaimOwes | daemon_live.py:497-517 | a claim is accepted if and only if a day has passed since the agent's last and the address is valid; it is then owed with its own id, address and amount, and no other agent's is touched |
| MiningClaims.RunPays | baitcoin_miner.py:41-92 | over every run the faucet payments in the blocks, and the one still due, are for each agent exactly those its accepted claims and the mining between them call for |
| MiningClaims.ClaimPaidIff | daemon_live.py:511-514 | an accepted claim is paid by the next block if and only if its agent is not accepted again before it |
| MiningClaims.ClaimsADayApart | daemon_live.py:500-506 | over every run the accepted claims of an agent are a day or more apart |
| MiningBlocks.RunShapes | baitcoin_miner.py:29-84 | over every run every block above the base repeats the one below it but for its index, its own coinbase, its time, its count and a header over its own transactions |
| MiningBlocks.RunNamesTop | baitcoin_miner.py:85-88 | over every run in which a block is mined the height entries present and the last hash, where kept, name the top |
| MiningBlocks.MineShapes | baitcoin_miner.py:25-101 | mining answers the height, hash, count and nonce of the block it stored |
| MiningBlocks.BlockCarries | baitcoin_miner.py:43-71 | each transaction of a block but its coinbase repeats a queued claim, a pending broadcast or a waiting registration, with its id and time |
| MiningBlocks.QueueAnswers | daemon_live.py:477-495 | a broadcast is refused if and only if a pending one bears its signature; accepted, it comes last, stamped, and the newest 5000 stay |
| MiningBlocks.RegisterAnswers | daemon_live.py:737-763 | a registration is answered by the first rule that fails; accepted, it is stored last, waiting, as given but for the white space around |
| MiningBlocks.ClaimAnswers | daemon_live.py:502-510 | the wait is looked at before the address, and the answer tells the whole seconds left |
| MiningNodes.Node.constructor | baitcoin_miner.py:12-18 | a node over what the files hold |
| MiningNodes.Node.QueueBroadcast | daemon_live.py:477-495 | a pending signature is refused, otherwise the item goes last and the newest 5000 stay |
| MiningNodes.Node.MylinkRegister | daemon_live.py:737-763 | trimming, the checks in order, then a waiting registration |
| MiningNodes.Node.FaucetClaim | daemon_live.py:497-517 | the cooldown, the address check, then the agent's entry replaced or added by a queued claim |
| MiningNodes.Node.LastKey | baitcoin_miner.py:12-28 | the greatest block key |
| MiningNodes.Node.TakeFaucet | baitcoin_miner.py:43-50 | one transaction for each queued claim, in order |
| MiningNodes.Node.TakeTransfers | baitcoin_miner.py:54-61 | one transaction for each pending broadcast, in order |
| MiningNodes.Node.TakeIdentities | baitcoin_miner.py:65-71 | one transaction for each registration that waits, in order |
| MiningNodes.Node.FindNonce | baitcoin_miner.py:76-81 | the loop ends with the first nonce that meets the target, or 201 |
| MiningNodes.Node.MineBlock | baitcoin_miner.py:25-101 | the whole new state and answer of mining, an empty chain and an empty last block included |
| MiningNodes.Node.SaveBlock | baitcoin_miner.py:85-89 | the block under its key, the height entries that exist and the last hash where it is kept |
| MiningNodes.Node.DrainQueues | baitcoin_miner.py:90-100 | claims and registrations marked, pending moved to mined |
| Names.SortedNames | baitcoin_ai/aipkg.py:107 | sorting a set of names gives its one ascending listing |
| Names.OneListing | baitcoin_ai/aipkg.py:80-107 | a set of names has only one ascending listing |
| Names.ComponentsOfJoin | baitcoin_ai/aipkg.py:82 | a relative path is taken apart into the components it was joined from |
| Names.ProperPathIsSafe | baitcoin_ai/aipkg.py:64 | a path joined from proper components is neither absolute nor steps up |
| AiPkg.BuildPackage | baitcoin_ai/aipkg.py:73-116 | the loops return and write exactly what follows from the files collected; nothing is written when the manifest is refused |
| AiPkg.InspectPackage | baitcoin_ai/aipkg.py:119-136 | the verdict, each error in the order of the checks |
| AiPkg.DistinctCount | baitcoin_ai/aipkg.py:123 | a list is as long as its set if and only if it has no repeats |
| AiPkgTheorems.CanonicalInjective | baitcoin_ai/aipkg.py:33-34 | the canonical bytes determine the value |
| AiPkgTheorems.FaithfulRuntimeExists | baitcoin_ai/aipkg.py:126 | the assumption on json.loads and the digest format can be met |
| AiPkgArchives.ArchiveHolds | baitcoin_ai/aipkg.py:79-116 | the archive written is, in the order of their names, exactly the regular files of the walk with their bytes, but for symbolic links, the top-level manifest.json, everything under a `__pycache__`, the root included, and names ending in .pyc or .pyo after a stem; then the manifest |
| AiPkgArchives.CapabilitiesKept | baitcoin_ai/aipkg.py:101 | the manifest names the capabilities given, each as often, in order |
| Names.SortedExact | baitcoin_ai/aipkg.py:101 | sorting keeps every name as often as it was given and puts none before an earlier one |
| AiPkgTheorems.EnumerationInvisible | baitcoin_ai/aipkg.py:80-116 | two walks over the same entries, in any order, give the same answer and the same archive |
| AiPkgTheorems.CollectedPathsAreSafe | baitcoin_ai/aipkg.py:64-65 | no collected path is unsafe, a folder name or manifest.json |
| AiPkgTheorems.BuildSucceedsIff | baitcoin_ai/aipkg.py:37-104 | building succeeds if and only if the metadata passes the header rules and the entrypoint was collected |
| AiPkgTheorems.BuiltIsAccepted | baitcoin_ai/aipkg.py:73-136 | inspect_package accepts whatever build_package writes and returns the same manifest |
| AiPkgTheorems.AcceptedIsSound | baitcoin_ai/aipkg.py:50-135 | in every accepted archive the entrypoint is one of the archive's own files, no file's path is absolute or steps up, and only known permissions with known values are asked for |
| AiPkgArchives.FirstRuleBroken | baitcoin_ai/aipkg.py:37-70 | a manifest is refused if and only if it breaks a rule, each told by the texts it admits, and for the first it breaks |
| AiPkgArchives.AcceptedIff | baitcoin_ai/aipkg.py:119-136 | an archive is accepted if and only if its names are single and safe, its manifest breaks no rule and the table is its files with their digests; a refusal names the first of these to fail |
| AiPkgArchives.ContentsExact | baitcoin_ai/aipkg.py:119-130 | the files of an archive are its members but for the manifest and names that end in a slash |
| AiPkgTheorems.VersionExact | baitcoin_ai/aipkg.py:20 | reading a version from the left accepts exactly the texts the pattern describes: three digit runs with dots between them and an optional tail |
| AiPkgTheorems.TableBindsFiles | baitcoin_ai/aipkg.py:130-135 | two accepted archives without a digest collision have the same files table if and only if they hold the same files |
| AiPkgTheorems.ManifestBindsFiles | baitcoin_ai/aipkg.py:119-136 | equal manifests, identical files |
| AiPkgTheorems.FolderEntryUnseen | baitcoin_ai/aipkg.py:130 | adding an entry whose name ends in a slash never changes the verdict |

## Left out

- BridgeTheorems.VolumeExactIff: amounts and limits are integer sats, not BAIT floats; rounding of the float sums is not modelled. Lock minimums are taken non-negative.
- BridgeTheorems.Conservation: nothing is claimed of the released and burned totals. `release_bait` does not check the event's state and `burn_wrapped` does not look at the minted total; both are modelled and keep the invariant.
- BridgeManagers.BridgeManager.LockBait: the transfer id is a parameter and runs are over ids never used before (`FreshRun`, for uuid4); one clock reading stands for the several of one call.
- Events, records, address entries and transaction entries are values in maps; that getters hand out live objects is not modelled.
- Cryptography: SHA-256, RIPEMD-160, Ed25519, BIP-340 and Base64 are opaque, and the registry constructor that parses keys is not part of this model.
- `AnchorProtocol.generate_proof`: it looks an integer height up in a list of digests and joins the batches of all chains, so no clean statement exists; paths are taken from `_compute_proof_path`.
- Confirmation counts, statistics, listing getters and `to_dict` forms of the bridge.
- Explorer: token and agent-registry enrichment, the mempool view and paging getters; output addresses are taken as already derived from the script.
- Mining.RunAccounts: queue, register and mine steps are atomic; files, locks, corrupt or missing files and HTTP are not modelled. The serial number of a broadcast and the list of dropped ones are labels of the model.
- MiningNodes.Node.MineBlock: a last block without any transactions list.
- MiningNodes.Node.MylinkRegister: skills, biography and the contract file, which no later step of the miner reads. Identity and claim ids are told apart by all they are the digest of; the source joins those texts without separators.
- Coinbase.RewardsAgree: of `build_coinbase_transaction` only the reward; its ids, scripts and timestamps copy the arguments and have no bearing on the supply.
- AiPkg.BuildPackage: ZIP encoding, times and attributes; sequences other than lists of strings as capabilities; floats in metadata. File names are POSIX names of Unicode scalar values.
- AiPkg.InspectPackage: which file or field an error message names; bytes that are not UTF-8 count as an unreadable manifest.
- `build_catalog` and the command line of the package tool: each catalog entry is a manifest `inspect_package` accepted, whose promises are proved above; the refusal of a second package id is not part of this model.
