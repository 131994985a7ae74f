# Bitcoin staking and timestamping: a verified model

This project models the parts of the Bitcoin staking stack whose correctness is not obvious from
reading one function, and proves what they promise.

- **Staking scripts** (`Tapscript`, `StakingScripts`). `newAnonScriptPaths` is a small compiler
  from a spending policy to tapscript bytes. `Tapscript` executes those bytes (sections
  "Specification" and "Rules for signature opcodes" of BIP-342, section "Specification" of
  BIP-112), and each compiled leaf is accepted exactly when its policy holds.
- **EOTS** (`ModArith`, `Eots`, `EotsManager`). Sign, verify and extract follow sections "Default
  Signing" and "Verification" of BIP-340 with a nonce chosen by the caller. A point is its discrete
  logarithm modulo the group order; of the curve only the behaviour of x, parity and lift_x under
  negation is used, and a group of order 5 shows that these assumptions can be met. The manager
  guards signing with a store of sign records, and is proved safe over all runs.
- **Checkpoints** (`CheckpointCodec`, `CheckpointCache`). The two-part OP_RETURN encoding is a
  bijection, and segment matching does not depend on map order.
- **Staking transactions** (`StakingTx`). The parser accepts exactly the transactions that describe
  themselves unambiguously, and recovers what the builder wrote.
- **Reporter** (`BtcCache`, `Reporter`, `BootstrapProtocol`). The bounded block cache, reorgs,
  bootstrapping, header submission, and the mutex and WaitGroup around bootstrapping as a
  fine-grained step system.
- **Economic and quorum rules** (`SlashingTx`, `ForkEvidence`, `Monitor`, `DuplicateProviders`).

`Prelude` holds bytes, machine integers and big-endian numbers, `BtcTx` transaction outputs, and
`Sorting` stable sorting.

Hashes, HMAC, signature validity, BLS verification, the slash-amount rounding, the
taproot commitment, transaction weight, dust and hash, and all answers of nodes, clients and stores
are parameters, so every statement holds for all of them. Code that updates state in place is a
class or a method with loops; its contract ties the new state to a function of the old state, and
the properties are proved of that function.

Five properties one would expect do not hold of the code on all inputs. Each has a concrete failing
case and the exact condition under which it holds:

- A successful Sign need not verify: the zero nonce is accepted by Sign and rejected by Verify.
  It verifies if and only if the nonce is not zero (`SignedVerifies`,
  `ZeroNonceSignatureIsRejected`). The manager is not affected: its nonce derivation resamples until
  the nonce neither overflows nor is zero
  (finality-provider/eotsmanager/randgenerator/randgenerator.go:22-38, `GenerateRandomness`).
- The fast staking filter can reject a transaction that the parser accepts. On such a transaction it
  accepts if and only if every output that carries the tag and version 0 has keys that parse
  (`FilterAgreesWithParser`, `FilterRejectsAnAcceptedTx`, `FilterRejectsThisTx`).
- The two-thirds test multiplies powers in 64 bits and can wrap, in both directions: a minority can
  pass, and a checkpoint signed by every validator can be rejected. The test is the two-thirds rule
  if and only if the wrap-around is harmless, an arithmetic condition on signed and total power that
  always holds when three times the total power fits (`PassingMeansTwoThirds`,
  `HarmlessForFittingTotal`, `WrappedThresholdAcceptsAMinority`, `EveryonesSignatureIsRejected`,
  `OnlyValidatorIsRejected`).
- A monitor that started with an empty store can skip epochs by restarting. Over any run it skips
  none if and only if each restart that still finds the store empty is answered at most the first
  epoch not yet verified (`FreshStoreMaySkip`, `FreshRunSkipsNothingIff`).
- With two goroutines in `bootstrapWithRetries` at once, a finished `bootstrapWg.Wait` can coincide
  with a set flag. It does if and only if a goroutine is inside the mutex between setting the flag
  and adding to the group (`FinishedWaitSeesClearFlag`, `WindowIsReachable`). The reporter calls it
  from one goroutine at a time, and there a finishing Wait always sees the flag clear and bootstrap
  is never refused (`SingleCallerNeverRefused`).

A multisig over a single key ignores the requested threshold and asks for that one key, so a
covenant of one member needs one signature also for a quorum of 0; `QuorumSigned`, the policy that
the leaves are proved against, says so.

Code and documentation disagree in one place: the length errors of `GetCheckpointData` speak of 77
and 62 bytes, while the code asks for 78 and 63. The model follows the code.

## Model

| member | source | states |
|---|---|---|
| `StakingScripts.WitnessOrderMeetsScriptOrder` | anon/types/btc_schnorr_pk.go:135-144 | For distinct keys the descending key order in which signatures are listed is the exact reversal of the ascending order in the script, whatever the parities and the original order |
| `StakingScripts.KeyOrder` | anon/btcstaking/scripts_utils.go:45-54 | Sorted keys are a permutation in which an earlier key has the smaller byte at the first difference; the listing order of signatures is the other way round |
| `Sorting.OrderOfBytes` | anon/btcstaking/scripts_utils.go:45-54 | Comparing byte strings means: at the first difference the smaller byte, or the earlier end, is below |
| `StakingScripts.AssembleMultiSigScript` | anon/btcstaking/scripts_utils.go:16-40 | The loop emits the bytes of CHECKSIG for the first key, CHECKSIGADD for the others, the threshold and NUMEQUAL or NUMEQUALVERIFY |
| `StakingScripts.BuildMultiSigScript` | anon/btcstaking/scripts_utils.go:76-101 | Fails exactly on no keys or a threshold above the number of keys; one key gives the single-key script; otherwise the multisig over the sorted keys. Distinctness is left to the caller |
| `StakingScripts.QuorumScriptBytes` | anon/btcstaking/scripts_utils.go:16-101 | When a quorum script exists, and its exact bytes: every sorted key with its opcode at its place, the threshold and the final opcode; one key gives the single-key script |
| `Tapscript.AddIntIsMinimal` | anon/btcstaking/scripts_utils.go:105-115 | Numbers in scripts are pushed the minimal way: small ones by their opcode, others as shortest little-endian bytes |
| `StakingScripts.SingleKeyIsOneOfOne` | anon/btcstaking/scripts_utils.go:119-133 | On every stack and in front of every further script, the single-key script runs exactly like the one-of-one multisig |
| `StakingScripts.CheckForDuplicateKeys` | anon/btcstaking/types.go:273-303 | Accepts exactly when provider keys are distinct, covenant keys are distinct, and staker, providers and covenant have no key in common |
| `StakingScripts.AggregateScripts` | anon/btcstaking/types.go:239-250 | The concatenation of the scripts in order |
| `StakingScripts.NewAnonScriptPaths` | anon/btcstaking/types.go:305-373 | Succeeds exactly for a present staker, distinct keys, at least one provider and covenant member and a quorum not above the covenant size; the three leaves as bytes around the two quorum scripts |
| `StakingScripts.ExecQuorum` | anon/btcstaking/scripts_utils.go:76-101 | What a compiled quorum does to any stack: pass, abort on an invalid non-empty slot, or push false, in the terms of the policy |
| `StakingScripts.UnbondingLeafMeaning` | anon/btcstaking/types.go:305-373 | A stack with one slot per covenant key is accepted if and only if the staker signed, exactly a quorum of slots is filled and each filled slot is valid for its own key (and the stack limit is kept) |
| `StakingScripts.SlashingLeafMeaning` | anon/btcstaking/types.go:305-373 | As the unbonding leaf, and in addition exactly one finality provider slot filled and valid for its own key |
| `StakingScripts.TimeLockLeafMeaning` | anon/btcstaking/scripts_utils.go:105-115 | Accepted if and only if the staker signed, the lock is at least 1, and transaction version and sequence satisfy it as a block count |
| `StakingScripts.NewTaprootScriptHolder` | anon/btcstaking/types.go:112-152 | A tree exists exactly when no script is empty and no two leaf hashes coincide; the error says which |
| `StakingScripts.CompiledLeavesAlwaysFormATree` | anon/btcstaking/types.go:381-437 | The three leaves of a compiled policy are never empty and never equal, so without leaf-hash collisions the staking output exists and commits to them in the order time lock, unbonding, slashing |
| `StakingScripts.ScriptsIgnoreParity` | anon/btcstaking/types.go:381-437 | The staking output depends on the x coordinates of the keys only |
| `StakingScripts.CreateWitness` | anon/btcstaking/witness_utils.go:113-136 | The array filled by index holds the signatures, then script and control block |
| `StakingScripts.CreateUnbondingPathWitness` | anon/btcstaking/witness_utils.go:24-54 | Error exactly without covenant signatures or delegator signature; nil signatures become empty slots, order kept |
| `StakingScripts.CreateSlashingPathWitness` | anon/btcstaking/witness_utils.go:61-105 | Error exactly when one of the three kinds of signature is missing; covenant slots, provider slots, delegator signature, script, control block |
| `StakingScripts.CreateTimeLockPathWitness` | anon/btcstaking/witness_utils.go:10-18 | The delegator signature alone on the stack |
| `StakingScripts.BuiltSlashingWitnessSpends` | anon/btcstaking/witness_utils.go:61-105 | End to end: the built slashing witness spends if and only if the delegator, one provider and a quorum of covenant members signed, with signatures listed in SortBIP340PKs order and nil for the others |
| `StakingScripts.BuiltUnbondingWitnessSpends` | anon/btcstaking/witness_utils.go:24-54 | End to end: the built unbonding witness spends if and only if the delegator and a quorum of covenant members signed |
| `StakingScripts.BuiltTimeLockWitnessSpends` | anon/btcstaking/witness_utils.go:10-18 | End to end: the built time-lock witness spends if and only if the delegator signed and version and sequence satisfy the lock |
| `Eots.SignHashInPlace` | anon/crypto/eots/eots.go:64-140 | The in-place scalar computation, blinding included, equals its functional specification and leaves key and nonce untouched |
| `Eots.SignSucceedsIff` | anon/crypto/eots/eots.go:64-140 | Sign returns a signature if and only if the key is not zero, the blinding could be drawn and the challenge is in range; otherwise the error names the cause |
| `Eots.VerifyHashInPlace` | anon/crypto/eots/eots.go:152-218 | As above for verification; the signature is untouched |
| `Eots.VerifiesIff` | anon/crypto/eots/eots.go:152-218 | A signature verifies if and only if key and randomness are on the curve, the challenge e is in range and the signature is R + e*P for their even points |
| `Eots.ExtractFromHashesInPlace` | anon/crypto/eots/eots.go:229-268 | As above for extraction, the mismatching key beside the error included; the caller's second signature is left negated exactly when both challenges were in range and the signatures differed |
| `Eots.BlindingIsIrrelevant` | anon/crypto/eots/eots.go:64-140 | The signature does not depend on the blinding factor |
| `Eots.SignedVerifies` | anon/crypto/eots/eots.go:64-218 | In all parity cases of key and nonce, a signature that Sign returns verifies if and only if the nonce is not zero |
| `Eots.ZeroNonceSignatureIsRejected` | anon/crypto/eots/eots.go:64-218 | A concrete zero-nonce signature that Verify rejects |
| `Eots.ExtractComplete` | anon/crypto/eots/eots.go:229-268 | For any two signatures that verify under one key and one public randomness, however made, Extract returns the private key of exactly the given point, even or odd, if and only if the challenges differ |
| `Eots.ExtractSound` | anon/crypto/eots/eots.go:229-268 | For any signatures at all, Extract returns no key but that of the given point, and each error occurs exactly in its situation |
| `EotsManager.HasDuplicateHeights` | finality-provider/util/validation.go:13-23 | Reports exactly whether heights repeat, and the first repetition |
| `EotsManager.RecordKeyInjective` | finality-provider/eotsmanager/store/storedsigningrecord.go:30-41 | For public keys of one length, record keys of different chain, key or height never coincide |
| `EotsManager.RecordKeyParts` | finality-provider/eotsmanager/store/storedsigningrecord.go:30-41 | Chain, public key and big-endian height at their places in the key |
| `EotsManager.RandInputInjective` | finality-provider/eotsmanager/randgenerator/randgenerator.go:25-25 | The bytes fed to HMAC determine height, chain and iteration |
| `EotsManager.RandInputParts` | finality-provider/eotsmanager/randgenerator/randgenerator.go:25-25 | Height, chain and iteration at their places in the HMAC input |
| `EotsManager.GenerateRandomness` | finality-provider/eotsmanager/randgenerator/randgenerator.go:16-46 | The rejection-sampling loop returns the first sample that neither overflows nor is zero, and its public randomness |
| `EotsManager.NoncesDifferWithoutCollisions` | finality-provider/eotsmanager/randgenerator/randgenerator.go:16-46 | If HMAC does not collide, up to sign, on the inputs that were drawn from, different chains or heights have different public randomness |
| `EotsManager.LocalEOTSManager.SignEOTS` | finality-provider/eotsmanager/localmanager.go:240-313 | Result and new store for every combination of existing record and store, key, randomness and save failure |
| `EotsManager.SigningOutcome` | finality-provider/eotsmanager/localmanager.go:240-313 | When nothing fails: a recorded message gets its signature again, another message at that height is refused, and a new height is signed exactly if the challenge is in range, with a verifying signature that becomes the only new record |
| `EotsManager.LocalEOTSManager.SignBatchEOTS` | finality-provider/eotsmanager/localmanager.go:315-432 | Result and new store of the batch, with the same failures |
| `EotsManager.LocalEOTSManager.CreateRandomnessPairList` | finality-provider/eotsmanager/localmanager.go:201-238 | Entry i is the public randomness of height start + i*interval, or start + i, modulo 2^64; a zero interval is an error |
| `EotsManager.BatchIsSequential` | finality-provider/eotsmanager/localmanager.go:315-432 | Without faults: repeated heights are refused; a batch of distinct heights releases the same signatures and leaves the same store as signing entry by entry and dropping double-sign refusals, and fails exactly when an entry would |
| `EotsManager.RunKeepsInv` | finality-provider/eotsmanager/localmanager.go:240-432 | Over every run of single and batch calls with failures anywhere, every stored record is genuine and every released signature is recorded |
| `EotsManager.OneMessagePerHeight` | finality-provider/eotsmanager/localmanager.go:240-432 | Over every such run, all signatures released for one key, chain and height are over the same message and equal |
| `EotsManager.ReleasedVerifiesAgainstCommitment` | finality-provider/eotsmanager/localmanager.go:201-313 | Every released signature verifies against the entry for its height in the committed randomness list, for consecutive and interval heights |
| `EotsManager.ReleasesNeverRevealTheKey` | finality-provider/eotsmanager/localmanager.go:240-432 | If HMAC does not collide on the released heights, two released signatures sharing public randomness are one signature over one message, and Extract refuses them |
| `CheckpointCodec.VerHalfParts` | anon/btctxformatter/formatter.go:74-82 | Version and part number packed into one byte are both recovered |
| `CheckpointCodec.HeaderParts` | anon/btctxformatter/formatter.go:74-82 | Tag, version and part of an encoded header are recovered by the header parser |
| `CheckpointCodec.IsAnonCheckpointData` | anon/btctxformatter/formatter.go:285-304 | The loop over part numbers returns the recognised part, whose data follows the five-byte header of a string that starts with the tag |
| `CheckpointCodec.EncodedLayout` | anon/btctxformatter/formatter.go:145-191 | When a checkpoint is encoded, and the place of every field in the two parts |
| `CheckpointCodec.RecognisedIff` | anon/btctxformatter/formatter.go:242-304 | What is recognised as which part, in terms of length, tag and header byte |
| `Prelude.BigEndianBytes` | anon/btctxformatter/formatter.go:145-191 | Integers are written most significant byte first |
| `CheckpointCodec.DecodesWhatWasEncoded` | anon/btctxformatter/formatter.go:145-191 | Encode, recognise, connect and decode gives the original checkpoint |
| `CheckpointCodec.EncodesWhatWasDecoded` | anon/btctxformatter/formatter.go:242-367 | Any two recognised parts that connect are the encoding of the checkpoint they decode to |
| `CheckpointCodec.NeverBothParts` | anon/btctxformatter/formatter.go:242-281 | No byte string is recognised as both parts, even under different tags |
| `CheckpointCache.Cache.AddSegment` | vigilante/types/ckpt_cache.go:41-52 | The segment is filed under its hash in the map of its part; a part number out of range is refused |
| `CheckpointCache.JoinedIff` | vigilante/types/ckpt_cache.go:68-95 | Two segments join if and only if they have the lengths of the two parts and the second ends in the first's checksum; the checkpoint's epoch is the first eight bytes |
| `CheckpointCache.EncodedPartsJoin` | vigilante/types/ckpt_cache.go:68-95 | The two parts of an encoded checkpoint join, with its epoch |
| `CheckpointCache.Cache.Match` | vigilante/types/ckpt_cache.go:68-95 | In any iteration order, every second segment with a partner ends up in exactly one new checkpoint, matched segments are removed, nothing else changes, and the list stays epoch-sorted |
| `CheckpointCache.NothingLeftJoins` | vigilante/types/ckpt_cache.go:68-95 | After a match no remaining pair of segments connects |
| `CheckpointCache.MatchesExactlyTheJoiningPairs` | vigilante/types/ckpt_cache.go:68-95 | If the checksums of cached first parts do not collide, the matched pairs are exactly all connecting pairs |
| `CheckpointCache.IterationOrderDoesNotMatter` | vigilante/types/ckpt_cache.go:68-95 | Two matches in different orders leave the same second segments, and without collisions the same first segments and pairs |
| `CheckpointCache.Cache.SortCheckpoints` | vigilante/types/ckpt_cache.go:58-64 | An epoch-sorted permutation |
| `CheckpointCache.Cache.PopEarliestCheckpoint` | vigilante/types/ckpt_cache.go:97-109 | Removes the head, which has the least epoch; nil exactly when empty |
| `CheckpointCache.Cache.PopAll` | vigilante/reporter/utils.go:276-282 | The popping loop empties the list in epoch order |
| `CheckpointCache.Cache.Cleanup` | vigilante/types/ckpt_cache.go:130-150 | Removes any set of expired segments and nothing else |
| `StakingTx.OpReturnRoundTrip` | anon/btcstaking/identifiable_staking.go:118-173 | Reading a written OP_RETURN output gives the same data with even keys |
| `StakingTx.OpReturnLayout` | anon/btcstaking/identifiable_staking.go:118-153 | Which output scripts are read as staking data and where each field is, the longer push opcodes that fit by accident included |
| `StakingTx.OpReturnBytesWritten` | anon/btcstaking/identifiable_staking.go:165-173 | The written output byte by byte |
| `StakingTx.TryToGetOpReturnData` | anon/btcstaking/identifiable_staking.go:281-311 | The only output with staking data, nothing if there is none, an error exactly for two |
| `StakingTx.TryToGetStakingOutput` | anon/btcstaking/identifiable_staking.go:313-340 | The only output paying to the script, nothing if there is none, an error exactly for two |
| `StakingTx.ParseV0StakingTx` | anon/btcstaking/identifiable_staking.go:345-448 | Succeeds exactly when some description of the transaction exists, and returns it |
| `StakingTx.DescriptionUnique` | anon/btcstaking/identifiable_staking.go:345-448 | A transaction has at most one description |
| `StakingTx.BuiltIff` | anon/btcstaking/identifiable_staking.go:231-259 | The outputs are built exactly for a present staker, a policy that compiles to a tree and a four-byte tag, with the amount on the staking output |
| `StakingTx.ParsesWhatWasBuilt` | anon/btcstaking/identifiable_staking.go:231-259 | With any unrelated outputs around them, the built outputs describe the tag, x-only keys, staking time and both positions; the amount is on the staking output |
| `StakingTx.IsPossibleV0StakingTx` | anon/btcstaking/identifiable_staking.go:457-497 | Accepts exactly with two outputs or more of which exactly one carries the tag and version 0 |
| `StakingTx.TaggedIff` | anon/btcstaking/identifiable_staking.go:457-497 | Which bytes count as carrying the tag and version 0 |
| `StakingTx.FilterAgreesWithParser` | anon/btcstaking/identifiable_staking.go:457-497 | On a transaction the parser accepts, the filter accepts if and only if every output with the tag and version 0 has keys that parse |
| `StakingTx.FilterRejectsAnAcceptedTx` | anon/btcstaking/identifiable_staking.go:457-497 | Appending a tagged output with unparseable keys keeps the transaction acceptable to the parser and makes the filter reject it |
| `StakingTx.FilterRejectsThisTx` | anon/btcstaking/identifiable_staking.go:457-497 | One such transaction |
| `BtcCache.BTCCache.Init` | vigilante/types/btccache.go:29-49 | Error exactly for too many or unsorted blocks, panic exactly when blocks are added to a cache over its limit, else the last maxEntries of old and new blocks |
| `BtcCache.BTCCache.Add` | vigilante/types/btccache.go:60-72 | Panics exactly when the size is over the limit, else keeps the last maxEntries blocks |
| `BtcCache.BTCCache.GetLastBlocks` | vigilante/types/btccache.go:134-154 | Panics exactly on an empty cache, error exactly out of range, else the suffix from the last block of that height or everything if it is missing; on a linked cache it succeeds exactly when the height is cached and returns the suffix from it |
| `BtcCache.BTCCache.TrimConfirmedBlocks` | vigilante/types/btccache.go:166-180 | Splits the cache: returned and kept blocks concatenate to the old ones, at most k kept |
| `BtcCache.BTCCache.FindBlock` | vigilante/types/btccache.go:183-211 | Panics exactly on an empty cache; what it finds is cached at that height; on a height-sorted cache it agrees with looking at every block |
| `BtcCache.BTCCache.Resize` | vigilante/types/btccache.go:213-223 | Sets a positive limit, refuses zero |
| `BtcCache.BTCCache.Trim` | vigilante/types/btccache.go:226-241 | Keeps the last maxEntries blocks |
| `BtcCache.IsSorted` | vigilante/types/btccache.go:37-42 | Adjacent comparisons decide whether the whole list is height-sorted |
| `Reporter.GetChainBlocks` | vigilante/btcclient/query.go:177-204 | Walking backwards from an honest tip fills the array with the hash-linked chain from the base height to the tip; on a served chain it succeeds and returns its suffix |
| `Reporter.SameChain` | vigilante/btcclient/query.go:177-204 | Two linked honest chains of one length with one tip are equal |
| `Reporter.ChunkBy` | vigilante/reporter/utils.go:19-26 | Chunks concatenate to the input, all full but the last |
| `Reporter.GetHeaderMsgsToSubmit` | vigilante/reporter/utils.go:30-79 | Fails exactly when a failing light-client query is reached; else non-empty chunks within the limit that concatenate to the suffix from the first unknown header |
| `Reporter.SuffixParentsFirst` | vigilante/reporter/utils.go:30-79 | In that suffix of a linked chain every header's parent is known or comes right before it |
| `Reporter.ProcessHeaders` | vigilante/reporter/utils.go:152-204 | First pass: whole messages of maxHeaders headers from the first unknown header on are sent until one is not accepted, parents first; it succeeds exactly if no failing query is reached and none is refused |
| `Reporter.FilterAlreadyProcessedBlocks` | vigilante/reporter/utils.go:206-227 | The suffix from the first block above a height; on a sorted list exactly the blocks above it |
| `Reporter.BootstrapHeightsInCache` | vigilante/reporter/bootstrapping.go:31-60 | How many heights the fetch height and the consistency height leave up to the light client's tip, and exactly when consistency and start height lie between the fetch height and the BTC tip |
| `Reporter.Reporter.InitBTCCache` | vigilante/reporter/bootstrapping.go:206-254 | Fails exactly on a failed light-client query; otherwise a fresh linked cache from the fetch height to the BTC tip, always if the node serves that chain and it fits |
| `Reporter.Reporter.CheckConsistency` | vigilante/reporter/bootstrapping.go:31-60 | With all answers there, success if and only if the block at the consistency height is cached and known to the light client; sync starts right above it |
| `Reporter.Reporter.BlocksToSync` | vigilante/reporter/bootstrapping.go:107-110 | The cached blocks to sync start with the child of the agreed block |
| `Reporter.Reporter.TrimToLimit` | vigilante/reporter/bootstrapping.go:129-134 | The cache is cut to its last k+w blocks |
| `Reporter.Reporter.Bootstrap` | vigilante/reporter/bootstrapping.go:62-156 | Whatever fails, the cache stays a linked chain within its limit and headers go out parents first; on a consistent snapshot nothing panics and what is sent is the BTC chain after the agreed block from its first unknown header; if all queries and messages go through it succeeds and keeps the last k+w blocks fetched |
| `Reporter.Reporter.BootstrapWithRetries` | vigilante/reporter/bootstrapping.go:176-202 | Over any attempts the cache stays a linked chain within its limit; success means the BTC tip of one of the attempts is cached, and an attempt in which everything goes through is a success |
| `Reporter.Reporter.HandleNewBlock` | vigilante/reporter/block_handler.go:42-82 | The new cache, the headers sent and the failure for an empty cache, old blocks, gaps, reorgs, failed fetches and extensions; without a failure the cache reaches the announced height; the panic in add is not reached |
| `Reporter.Reporter.OnEvent` | vigilante/reporter/block_handler.go:17-38 | After one event the cache has caught up with it, directly or by bootstrapping anew, unless no retry goes through |
| `Reporter.Reporter.Run` | vigilante/reporter/block_handler.go:11-39 | Over every sequence of block events, reorgs and re-bootstraps against honest nodes the cache is a hash-linked chain within its limit, add never panics, and the cache has caught up with the last event; blocks that come one after the other simply extend it |
| `BootstrapProtocol.RunKeepsInv` | vigilante/reporter/bootstrapping.go:69-89 | The mutex, flag and count invariants hold in every state of every interleaving |
| `BootstrapProtocol.OneBootstrapAtATime` | vigilante/reporter/bootstrapping.go:69-149 | At most one goroutine owns the flag; the WaitGroup count is owners that added plus those cleared but not done, so never negative |
| `BootstrapProtocol.FinishedWaitSeesClearFlag` | vigilante/reporter/bootstrapping.go:176-186 | When the count is zero the flag is set if and only if a goroutine is inside the mutex between setting the flag and adding |
| `BootstrapProtocol.WindowIsReachable` | vigilante/reporter/bootstrapping.go:69-77 | A run of two concurrent callers into that window, where a Wait can finish |
| `BootstrapProtocol.SingleCallerNeverRefused` | vigilante/reporter/bootstrapping.go:69-186 | With one calling goroutine, in every interleaving with the asynchronous ones, a finishing Wait sees the flag clear and bootstrap is never refused |
| `BootstrapProtocol.BootstrapRuns` | vigilante/reporter/bootstrapping.go:69-77 | From every state with nothing in progress a waiting caller gets through: it sets the flag, counts itself and hands over to its child |
| `BootstrapProtocol.FinishingCleansUp` | vigilante/reporter/bootstrapping.go:81-149 | From every state, finishing the asynchronous part or failing clears the flag and uncounts once |
| `SlashingTx.SlashingRateMeaning` | anon/btcstaking/types.go:531-545 | Valid rates are exactly the multiples of 0.0001 strictly between 0 and 1 |
| `SlashingTx.BuiltIff` | anon/btcstaking/staking.go:44-183 | When the strict builder returns a transaction, and every field of it |
| `SlashingTx.ValidateSlashingTx` | anon/btcstaking/staking.go:326-406 | The validator with its summing and dust loops equals its specification, the order of errors included |
| `SlashingTx.BuiltTxPassesValidation` | anon/btcstaking/staking.go:146-183 | A transaction of the strict builder passes the funding check for the same parameters if and only if the minimum fee is positive and reached and both transactions keep Bitcoin's sanity and weight limits |
| `SlashingTx.PassingTxSplitsFunding` | anon/btcstaking/staking.go:413-471 | A transaction passes if and only if it is well formed, spends the funding output and splits its value exactly into at least the rounded slash amount, a change locked to the staker and a fee of at least the minimum, without 64-bit wrap |
| `ForkEvidence.FindSubsetWithPowerSum` | anon/x/checkpointing/types/val_bls_set.go:23-41 | Error exactly for a bitmap that is too short, else keys and power of the selected validators, wrapping at 64 bits |
| `ForkEvidence.ByteIsSumOfBits` | anon/x/checkpointing/types/val_bls_set.go:34-35 | Bit i of a bitmap counts 2^(i mod 8) of its byte |
| `ForkEvidence.GetTotalPower` | anon/x/checkpointing/types/val_bls_set.go:51-58 | Total power, wrapping at 64 bits |
| `ForkEvidence.VerifyMultiSigAsWritten` | vigilante/types/epoch_info.go:65-80 | The check made of those two calls and the wrapping comparison |
| `ForkEvidence.PassingMeansTwoThirds` | vigilante/types/epoch_info.go:65-80 | Insufficient power is reported exactly when the signers hold no more than two thirds, if and only if the wrap-around is harmless; then passing means a valid signature of more than two thirds |
| `ForkEvidence.HarmlessForFittingTotal` | vigilante/types/epoch_info.go:67-67 | For a total below 2^64: harmless exactly if both products wrap equally often, or only the threshold wraps and the signed power stays below it; always if three times the total fits |
| `ForkEvidence.ShortBitmapIsInsufficient` | vigilante/types/epoch_info.go:65-80 | A bitmap that is too short reads as insufficient power |
| `ForkEvidence.WrappedThresholdAcceptsAMinority` | vigilante/types/epoch_info.go:65-80 | With a total power of 2^63 one unit of power passes |
| `ForkEvidence.EveryonesSignatureIsRejected` | vigilante/types/epoch_info.go:65-80 | When three times the total wraps and twice the total does not, a checkpoint signed by every validator is rejected |
| `ForkEvidence.OnlyValidatorIsRejected` | vigilante/types/epoch_info.go:65-80 | One such epoch, with a single validator of power 2^63 - 1 |
| `ForkEvidence.VerifyCheckpointIff` | vigilante/monitor/monitor.go:267-301 | A checkpoint passes, is reported as a fork, or has the wrong epoch, in exactly these situations |
| `ForkEvidence.ForkNeedsOneThird` | vigilante/monitor/monitor.go:267-301 | If verification reports an inconsistent block hash and no harmful wrap-around occurred, the validators who signed both checkpoints hold more than one third of the epoch's power |
| `Monitor.Monitor.UpdateEpochInfo` | vigilante/monitor/monitor.go:308-316 | The current epoch changes only if the query succeeds |
| `Monitor.Monitor.StartUp` | vigilante/monitor/monitor.go:134-156 | Start from the saved epoch plus one; with an empty store from the chain's epoch, or from the genesis epoch if that query fails; not up if the store or the epoch query fails |
| `Monitor.Monitor.HandleNewConfirmedCheckpoint` | vigilante/monitor/monitor.go:224-260 | The new current, saved and verified epochs and the error, for every outcome of VerifyCheckpoint and every failure |
| `Monitor.NoEpochIsSkipped` | vigilante/monitor/monitor.go:134-316 | From a store with a saved epoch, over every run of checkpoints, failures, crashes and restarts, every epoch after it and below the current one has been verified, and saved + 1 never exceeds current |
| `Monitor.PassingCheckpointsMoveOn` | vigilante/monitor/monitor.go:224-260 | As long as checkpoints pass the monitor moves on by one epoch with each and saves what it passed |
| `Monitor.VerifiedMeansTwoThirds` | vigilante/monitor/monitor.go:224-301 | Over every run, a verified epoch has checkpoints on BTC and on the chain with equal block hash, each validly signed by more than two thirds of the epoch's power unless a harmful wrap-around let it through |
| `Monitor.FreshStoreMaySkip` | vigilante/monitor/monitor.go:134-156 | From an empty store a crash and restart can skip epochs |
| `Monitor.FreshRunSkipsNothingIff` | vigilante/monitor/monitor.go:134-156 | Started with an empty store at some epoch, over any run no epoch from there to the current one is unverified if and only if each restart that finds the store empty is answered at most the first unverified epoch |
| `DuplicateProviders.GroupByAddr` | anon/app/upgrades/delete_dup_fp.go:52-66 | The map holds exactly the non-empty groups, in iteration order |
| `DuplicateProviders.DuplicatedAddrs` | anon/app/upgrades/delete_dup_fp.go:68-81 | In any map order, the addresses with two providers or more, from the greatest bytes to the least |
| `DuplicateProviders.SortedDupsUnique` | anon/app/upgrades/delete_dup_fp.go:68-81 | That list is unique, so the deletion list does not depend on map order |
| `DuplicateProviders.LoadSats` | anon/app/upgrades/delete_dup_fp.go:94-108 | Sats are loaded exactly for providers at the top height, and one failed query fails it |
| `DuplicateProviders.NeededIff` | anon/app/upgrades/delete_dup_fp.go:94-108 | The queries that can make the upgrade fail are those of providers sharing their group's highest voted height |
| `DuplicateProviders.OrderGroup` | anon/app/upgrades/delete_dup_fp.go:85-118 | Both sorts with lazy loading in between; fails exactly if a query for a provider tied at the top fails |
| `DuplicateProviders.FpSoftDeleteDupAddr` | anon/app/upgrades/delete_dup_fp.go:52-134 | Succeeds exactly if all needed queries do, with the tails of the ordered groups as deletion list |
| `DuplicateProviders.LazyLoadingPicksTheSame` | anon/app/upgrades/delete_dup_fp.go:91-118 | Loading sats for top-height ties only picks the same survivor as ranking with all sats loaded |
| `DuplicateProviders.SurvivorIsBest` | anon/app/upgrades/delete_dup_fp.go:85-123 | The survivor is a maximum by height, then sats, and ties go to the earliest iterated |
| `DuplicateProviders.SurvivorIsFirstBest` | anon/app/upgrades/delete_dup_fp.go:52-123 | Among all providers of an address, in iteration order, the survivor ranks highest and those before it rank below |
| `DuplicateProviders.ExactlyOneSurvivorPerAddress` | anon/app/upgrades/delete_dup_fp.go:52-134 | For providers with distinct keys, exactly the survivor of each address is not deleted |

## Left out

- Tapscript beyond the fragment the scripts use: other opcodes, the signature-operation budget, the annex, minimal-push and minimal-if policy, and the check that the control block commits to the script.
- Elliptic-curve field arithmetic, SHA-256, BLS pairings, Merkle proofs and the taproot tweak are parameters.
- Termination of the nonce sampling loop: `EotsManager.Setup.Valid` asks that some iteration below 2^64 gives a usable sample, as the loop of finality-provider/eotsmanager/randgenerator/randgenerator.go:22-38 relies on.
- Key creation, key import and passphrases in the EOTS manager: the key tables are fixed over a run.
- UnsafeSignEOTS, UnsafeSignSchnorrSig and deletion of sign records: they bypass the protection on purpose.
- Timestamps in sign records and segments, and the wall clock of the segment cleanup: cleanup removes any chosen set of segments.
- Reporter.ProcessHeaders: the retry after ErrForkStartWithKnownHeader is not modelled, because its progress depends on the remote chain.
- Wrap-around of 32-bit heights (base + k + w) and of 64-bit epoch numbers in the monitor.
- Nil transactions, nil outputs and nil internal keys.
- The exact float64 behaviour of the slash-amount multiplication: one rounding function shared by builder and validator.
- CheckPreSignedTxSanity on more than one input: which of two errors is reported first is not distinguished.
- SetFpAncAddr, SoftDeleteFinalityProvider and iteration errors of the keeper in the upgrade.
- Library sorts are modelled by what they promise, as a stable sort function, not by their algorithm.
- waitUntilBTCSync: its polling loop is one answer, synced or not.
- App wiring, keepers, RPC and wallet clients, metrics, configuration, CLI, the covenant emulator and BIP-322 verification.
