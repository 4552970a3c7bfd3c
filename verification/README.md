# Keryx miner: verified models of its proofs, its escrow watcher and its card protocol

A Dafny model of the parts of the miner where a mistake costs blocks, funds or a GPU context, with
the properties those parts are built on. `dafny verify dfyconfig.toml` checks everything.

**Possession proofs** (`Hashing`, `Merkle`, `MerkleOps`, `Layout`, `SparseTree`, `WeightIndex`,
`Words`, `Digits`, `Tiles`, `Matrix`, `PadSchedule`, `Rewalk`, `ChunkWalk`, `MatrixProof`,
`Records`, `Wire`). The hash `blake` and the mixer `mix64` are parameters, so every statement holds
for all of them. Soundness is never "the hash is injective": a function computes, from the accepted
proof and the blob, two byte strings, and the lemma says that either the proof is honest or those two
differ and hash alike. The weight index is a class with its file, its dense tree and its sibling memo;
its methods are proved against the plain duplicate-last tree.

**The escrow watcher** (`EscrowEntry`, `ClaimBatch`, `EscrowLedger`, `EscrowMachine`, `EscrowRuns`,
`EscrowTwins`, `EscrowWatcher`). One entry's whole life is a list of causes; the ledger keeps each
entry's life beside it; the machine says what each event does to the state; `Sound` is the invariant
every event keeps; the class `Watcher` has the source's fields and loops, and each method is proved
equal to the machine's step.

**Its files** (`EscrowBook`, `EscrowCrash`, `EscrowRecovery`, `EscrowRestart`). The journal is a sequence
of lines whose last may be cut anywhere, the newline included. `EscrowCrash` is a machine of changes,
writes, writes that stop, snapshots, interrupted snapshots and restarts, in which nothing is held back:
appends after a cut and outpoints entered twice are runs like any other. `EscrowRecovery` says which runs
lose nothing, by what each write finds before it, and what a restart finds after them. `EscrowRestart` shows that every event of the
watcher is a run of that machine and that what a restart loads is always a state the watcher can run
from.

**The card protocol and its tables** (`GpuDrain`, `Segments`, `Gather`). Any number of threads clone
handles, drain, load, unload and rebuild in any order; the segment tables and the gather plan are the
loops of the source.

**Codecs** (`Base58`, `Target`).

## What turned out to be false, and when it holds

- The sparse build ends in the dense root for every hash exactly when there are more than 32 chunks
  (`SparseTree.SparseRootExact`): with fewer, the first fold already runs past the root.
  `merkle_path` itself is the dense path for every size (`WeightIndex.Index.MerklePath`).
- base58 gives a byte string back exactly when some byte is not zero (`Base58.DecodeOfEncode`); a
  string of zeros comes back one byte longer (`Base58.ConvertGrowsOnZeros`).
- An append loses nothing exactly when no line of the batch has been passed over and, if the journal
  does not end with a newline, the first line is stale and a complete line without its newline is
  written again by the rest of the batch or was stale (`EscrowBook.AppendAfterCut`). The source appends
  without looking at how the file ends, so after a write cut within a line the next line is lost
  (`EscrowRecovery.LineLostRun`), and after one cut before a newline the line just read back is lost
  with it (`EscrowRecovery.BothLinesRun`). Recovery is proved for every run in which, since the last
  snapshot or restart, each write found a batch that fits; a run whose writes all find a journal that
  ends with a newline is one (`EscrowRecovery.CrashRecovery`).
- A claim response reaches an entry exactly when no earlier entry has its outpoint
  (`EscrowRuns.ResponseReachesFirst`). After a reorganisation a removed output can be tracked again
  while its slashed entry is still in memory; the response then reaches the slashed one and the live
  one is claimed again (`EscrowTwins.AcceptanceMissesRetracked`, a run of events from an empty watcher).
- For the same reason an orphan counter can pass ten, on a done entry only
  (`EscrowRuns.CounterPastTenIff`, and the run of events `EscrowTwins.CounterPastTen`).
- And for the same reason a restart can lose a live entry: what it finds at an outpoint is the memory of
  the moment exactly when the outpoint's last line since the base is not that of a done entry while
  another is live (`EscrowRecovery.CrashRecovery`, `EscrowCrash.ShadowedRun`).
- With two mining workers on one card, an inference load can free weights under a walk; with at most
  one it cannot (`GpuDrain.SafeIffOneWorker`).
- The bucket table is cached under the segment and chunk counts alone; a cached table resolves a chunk
  exactly when the boundary its bucket names is not above the chunk
  (`Segments.CachedLutResolvesIff`, `Segments.StaleLutMisses`).
- Bytes the wire decoder accepts are the encoder's own exactly when they are the seven fields alone or
  the tag of their layout's last option is 1 (`Wire.CanonicalIff`); every longer layout of a proof is
  accepted too (`Wire.LongFormAccepted`).

## Model

| member | source | states |
|---|---|---|
| `Pow.CountIsCeil` | src/pom.rs:1279-1285 | halving upward level by level gives the number of nodes `ceil(n / 2^k)` |
| `Pow.HeightIsFirst` | src/pom.rs:561-575 | the root level is the first with exactly one node, and every level above has one too |
| `Merkle.BatchFold` | src/pom.rs:1430-1453 | a batch of `2^rounds` neighbours, short only at the right edge, folded by exactly `rounds` rounds is the dense tree's node above it |
| `Merkle.PathSuffixOpens` | src/pom_v4.rs:199-226 | dropping the lowest `d` siblings of any leaf's path gives a path that opens the node `d` levels up under the same root |
| `Merkle.PathOpens` | src/pom.rs:577-606 | for every tree and leaf the built path is accepted |
| `Merkle.ExtractSound` | src/pom.rs:598-606 | an opening that reaches a tree node at any level either shows the leaf its index bits lead to, or the extracted pair collides |
| `Merkle.OpeningSound` | src/pom.rs:598-606 | a path of any length accepted at `off` shows exactly chunk `off`, or `ChunkCollision` is a collision |
| `Merkle.GroupRootIsNode` | src/pom_v4.rs:193-196 | the root over an aligned group of `2^d` chunks is the blob tree's own node above it |
| `Merkle.GroupPathOpens` | src/pom_v4.rs:199-226 | the first chunk's path without its lowest `d` siblings opens the group's root at the group's index |
| `Merkle.GroupOpeningSound` | src/pom_v4.rs:229-256 | an accepted group opening shows exactly the blob's group, or `GroupCollision` is a collision |
| `MerkleOps.NextLevel` | src/pom.rs:561-575 | the pairing loop with duplicate-last is one round of the tree |
| `MerkleOps.FoldLevels` | src/pom.rs:1439-1453 | exactly `rounds` rounds and then the first node, for every batch |
| `MerkleOps.MerkleRoot` | src/pom.rs:561-575 | the loop over a nonempty level ends in the tree root |
| `MerkleOps.MerkleProof` | src/pom.rs:577-596 | the loop's siblings are the sibling of each ancestor, itself at a right edge |
| `MerkleOps.VerifyMerkle` | src/pom.rs:598-606 | accepts exactly when climbing the path by the index bits ends in the root |
| `Layout.TableFindsChunk` | src/pom.rs:1255-1271 | for every chunk number the partition-point lookup leads to that chunk's own bytes in the file |
| `Layout.RowsUpTo` | src/pom.rs:1255-1271 | all rows before the partition point start at or below the chunk, the next one above |
| `SparseTree.ComputeCheckpointOffsets` | src/pom.rs:994-1017 | levels 6, 12, ... and the root, each with its node count and the sum of the earlier ones as offset |
| `SparseTree.StoredAt` | src/pom.rs:994-1017 | node `t` of stored level `i`, read at the computed offset, is the dense tree's node |
| `SparseTree.FoldStoredLevel` | src/pom.rs:1458-1511 | a stored level folded batch by batch is the dense level `rounds` above it |
| `SparseTree.FinalizeCheckpointUpper` | src/pom.rs:1458-1511 | from the dense level 6, the whole file is every stored level of the dense tree and the root is its root |
| `SparseTree.AbsorbChunk` | src/pom.rs:1187-1196 | one more chunk keeps: full batches are on disk as level-6 nodes, the rest is buffered |
| `SparseTree.AbsorbTensor` | src/pom.rs:1175-1199 | slab by slab, exactly the tensor's whole chunks are absorbed in order |
| `SparseTree.StreamedIsLevel6` | src/pom.rs:1187-1205 | with the last partial batch folded, the file holds level 6 of the dense tree |
| `SparseTree.BuildFromGguf` | src/pom.rs:1152-1248 | the built index has the canonical chunks, the right layout, and for more than 32 chunks the dense nodes and the dense root |
| `SparseTree.SparseRootExact` | src/pom.rs:1152-1214 | sparse root equals dense root for all hashes and leaves if and only if there are more than 32 chunks |
| `WeightIndex.Index.constructor` | src/pom.rs:1216-1248 | a built index starts with an empty memo and no dense tree, and is valid |
| `WeightIndex.Index.ReadChunkBytes` | src/pom.rs:1255-1271 | the bytes read are chunk `off` of the canonical blob |
| `WeightIndex.Index.FindCheckpoint` | src/pom.rs:1274-1276 | the entry of any stored level, the root's included, with its offset and count |
| `WeightIndex.Index.CountAtLevel` | src/pom.rs:1279-1285 | the number of nodes of any level |
| `WeightIndex.Index.SourceNodes` | src/pom.rs:1296-1318 | the nodes read from chunks or checkpoint are the dense level's slice |
| `WeightIndex.Index.ComputeSubtreeHash` | src/pom.rs:1290-1318 | the recomputed node is the dense tree's node, short right edges included |
| `WeightIndex.Index.BuildDense` | src/pom.rs:1322-1342 | the kept levels are the dense tree's, and the memo is untouched |
| `WeightIndex.Index.ComputeSibling` | src/pom.rs:1344-1404 | a sibling from file or recomputation is the true sibling |
| `WeightIndex.Index.Sibling` | src/pom.rs:1344-1404 | through the memo in any reachable state the same, and the memo keeps only true siblings |
| `WeightIndex.Index.MerklePath` | src/pom.rs:1344-1404 | for every size and offset, whatever memo and dense tree hold, the path is the dense tree's path |
| `WeightIndex.Index.DensePath` | src/pom.rs:1344-1356 | the same from the resident levels |
| `Words.WordsRoundTrip` | src/pom.rs:354-370 | four words back to bytes are the chunk's bytes |
| `Matrix.DotLoop` | src/pom_v3.rs:87-90 | the running sum is the int8 dot product |
| `Matrix.TransitionInto` | src/pom_v4.rs:97-113 | the buffer written in place holds exactly the next state, whatever it held before |
| `Matrix.TransitionAt` | src/pom_v4.rs:60-113 | byte `j` of row `x` of the next state is the folded dot product of state row `x` and tile row `j` |
| `PadSchedule.PadStepsTelescope` | src/pom_v5.rs:86-98 | pad steps among the first `k` are `floor(k * s / 256)` |
| `PadSchedule.ScheduleExact` | src/pom_v5.rs:86-98 | for all positive counts: between 1 and 255 pad steps, exactly that many of the 256, and step 1 never one |
| `PadSchedule.ScheduleIsNearest` | src/pom_v5.rs:86-98 | away from the clamps the share of pad steps is the pad's share of the tiles, to the nearest step |
| `Rewalk.NextOffset` | src/pom_v5.rs:114-130 | every derived offset lies in the tile space, and in the pad exactly at pad steps |
| `Rewalk.PadOffsetsFollowSchedule` | src/pom_v5.rs:132-154 | along the whole walk an offset is in the pad exactly at pad steps, so the pad index never underflows |
| `Rewalk.VerifyProof` | src/pom_v5.rs:180-202 | the loop's verdict is: shape, every step's demand, then the derived final state |
| `Rewalk.CheckStep` | src/pom_v5.rs:132-202 | one step's demand: a weight tile of full size opening at the derived offset, or nothing shown at a pad step |
| `Rewalk.TileSound` | src/pom_v4.rs:229-256 | an accepted weight tile is the blob's tile at that offset, or a collision |
| `Rewalk.WalksAgree` | src/pom_v5.rs:132-154 | while every shown tile is the blob's, verifier and honest walk have the same state and offset |
| `Rewalk.RewalkSound` | src/pom_v5.rs:180-202 | accepted against the dense root: all tiles shown are the honest walk's and the final state is its own, or `RewalkCollision` is a collision (v4: no pad) |
| `Rewalk.RewalkComplete` | src/pom_v4.rs:199-256 | the honest proof with cut paths is accepted with the honest final state |
| `Rewalk.HonestAcceptedIff` | src/pom_v5.rs:180-202 | the honest proof is accepted against a root if and only if that root is the dense root |
| `Rewalk.ReadTile` | src/pom_v4.rs:199-226 | 32 chunk reads give the blob's tile |
| `Rewalk.BuildStep` | src/pom_v5.rs:157-178 | tile and cut path at a weight offset, nothing shown at a pad offset |
| `Rewalk.BuildProof` | src/pom_v5.rs:157-178 | fails exactly without tiles; else builds the honest proof and returns the honest final state, the index still valid |
| `Rewalk.BuildAndVerify` | src/pom_v5.rs:157-202 | built from an index and checked against its own root: accepted, with the builder's final state, if and only if that is the dense root; for more than 32 chunks it always is |
| `ChunkWalk.VerifyProofV2` | src/pom.rs:787-815 | the loop accepts exactly: legacy fields empty, every step opens where the state points, pow value and target |
| `ChunkWalk.V2Sound` | src/pom.rs:787-815 | accepted: the steps are the blob's chunks along the honest walk, the final state and pow value are its own and meet the target, or `V2Collision` is a collision |
| `ChunkWalk.V2Complete` | src/pom.rs:743-815 | the built proof is accepted if and only if the walk's pow value meets the target |
| `ChunkWalk.BuildProofV2` | src/pom.rs:743-782 | the loop over the index builds that proof |
| `ChunkWalk.VerifyProofV1` | src/pom.rs:820-852 | the loop accepts exactly: trace opening of the final state, pow value, target, and every challenged opening |
| `ChunkWalk.V1OpeningsSound` | src/pom.rs:820-852 | every challenged chunk of an accepted proof is the blob's where the opened state points, or a collision |
| `ChunkWalk.V1Complete` | src/pom.rs:675-852 | the built v1 proof is accepted if and only if the walk's pow value meets the target, duplicate-last trace trees included |
| `ChunkWalk.RecordTrace` | src/pom.rs:675-740 | the recorded states and leaves are the honest walk's |
| `ChunkWalk.OpenChallenges` | src/pom.rs:675-740 | one honest opening for every Fiat-Shamir challenge, in order |
| `ChunkWalk.BuildProofV1` | src/pom.rs:675-740 | commits the trace root, the final opening and the challenged openings of the honest walk |
| `MatrixProof.VerifyProofV3` | src/pom_v3.rs:238-290 | the loops accept exactly when shape, snippet openings and every derived check point hold |
| `MatrixProof.CheckCell` | src/pom_v3.rs:238-290 | a check point's demand: row under the committed root before, column under the weight root, cell under the root after |
| `MatrixProof.V3Complete` | src/pom_v3.rs:168-290 | for every seed and block the proof of the reference walk is accepted |
| `MatrixProof.ReadColumn` | src/pom_v3.rs:168-229 | eight chunk reads give the tile row a check needs |
| `MatrixProof.OpenChecks` | src/pom_v3.rs:168-229 | one opening of the dump for every check point |
| `MatrixProof.BuildProofV3` | src/pom_v3.rs:168-229 | refused exactly for a dump of the wrong shape or a blob without a tile; commits to and opens any other, and from the reference walk's dump is the honest proof |
| `MatrixProof.V3OpeningsSound` | src/pom_v3.rs:238-290 | every column and snippet a check of an accepted proof shows is the blob's at the derived offset, or a collision |
| `MatrixProof.ColumnIsRow` | src/pom_v3.rs:231-236 | the eight chunks of a column subtree are row `j` of the tile |
| `Wire.WireRoundTrip` | src/pom.rs:233-303 | every proof of every era decodes to itself |
| `Wire.LongerLayoutsFail` | src/pom.rs:294-303 | the bytes of a layout are refused by every longer layout |
| `Wire.WireInjective` | src/pom.rs:233-290 | different proofs have different bytes, across eras |
| `Wire.ItemsTight` | src/pom.rs:78-112 | items that decode are as many as counted, valid, and their encodings in a row: the converse of the round trip, for every codec |
| `Wire.AcceptedIff` | src/pom.rs:294-303 | for every byte string and proof: it decodes to the proof if and only if it is the proof in one of the five layouts |
| `Wire.LayoutUnique` | src/pom.rs:294-303 | no bytes are two proofs, nor one proof in two layouts |
| `Wire.CanonicalIff` | src/pom.rs:237-303 | accepted bytes are the encoder's own if and only if they are the seven fields alone or the last option's tag is 1 |
| `Wire.LongFormAccepted` | src/pom.rs:233-303 | every layout from the encoder's own up to the longest decodes to the proof, and only the first is the encoder's output |
| `EscrowEntry.RetriesCountSoloOrphans` | src/escrow.rs:963-1034 | after any history the orphan counter is exactly the number of solo orphan rejections; nothing resets it |
| `EscrowEntry.NoSlashByAssociation` | src/escrow.rs:963-1034 | without exclusion and without a burn of the entry itself, whatever burned or dead neighbours its batches had, a slash implies ten counted solo orphan rejections |
| `EscrowEntry.SlashStep` | src/escrow.rs:963-1034 | one step slashes an unslashed entry exactly by exclusion, by a burn that lists it or of it alone, or by a solo orphan rejection that makes ten |
| `EscrowEntry.TenthSlashes` | src/escrow.rs:985-1000 | from below ten no cause passes ten, and reaching ten slashes |
| `EscrowEntry.CapHalves` | src/escrow.rs:963-985 | a cap-setting rejection of a batch within the cap at least halves it |
| `EscrowEntry.BisectionEnds` | src/escrow.rs:963-1034 | within a cap's lifetime at most six rejections set it, and after six the entry is only claimed alone |
| `EscrowEntry.LifetimeBisectionEnds` | src/escrow.rs:845-1034 | the same for every stretch without expiry of a live entry's whole life |
| `EscrowEntry.DoneForever` | src/escrow.rs:963-1074 | no history makes a claimed or slashed entry live again |
| `ClaimBatch.FillOk` | src/escrow.rs:147-190 | a candidate's batch: distinct, eligible, of its pass and one window, no larger than any member's cap |
| `ClaimBatch.BatchMaximal` | src/escrow.rs:162-190 | no fitting entry is left out unless its cap or a member's forbids a larger batch |
| `ClaimBatch.NominalTakesAll` | src/escrow.rs:147-190 | a nominal candidate holds all fitting entries of its window, up to 87 |
| `ClaimBatch.InferenceFirst` | src/escrow.rs:115-152 | if a fitting inference output is left out of a nominal batch, every member is an inference output |
| `ClaimBatch.WindowsSorted` | src/escrow.rs:136-140 | the windows tried are exactly those present, current first, then ascending |
| `ClaimBatch.SelectSound` | src/escrow.rs:135-203 | a nonempty selection is the batch of the first releasable candidate and a well-formed claim |
| `ClaimBatch.SelectEmptyIff` | src/escrow.rs:135-203 | empty if and only if all eligible entries are live, uncapped, of the current window and fewer than 87 |
| `ClaimBatch.FillBatch` | src/escrow.rs:147-190 | the loop with its early exit computes that batch |
| `ClaimBatch.SelectClaimBatch` | src/escrow.rs:135-203 | the nested loops compute that selection |
| `EscrowBook.ReplayJournal` | src/escrow.rs:1464-1501 | one pass with the position index is line-by-line replay: stale and unreadable lines skipped, a last line without newline read, the last entry of an outpoint replaced |
| `EscrowBook.StaleIgnored` | src/escrow.rs:1478-1483 | lines no newer than what is loaded never change it |
| `EscrowCrash.ApplyPrefix` | src/escrow.rs:1464-1501 | consecutive lines of the history over a prefix of it give a prefix: repeats are idempotent, none is skipped |
| `EscrowCrash.StepKeeps` | src/escrow.rs:457-485 | every change, new entry, compaction, append, append that stops anywhere, snapshot, interrupted snapshot and restart keeps memory and files on one history |
| `EscrowRecovery.CrashRecovery` | src/escrow.rs:457-485 | after every run in which each write since the last snapshot or restart found a fitting batch, or a journal ending with a newline, a restart finds the memory of a moment no earlier than the last successful write: each outpoint's live entry if and only if its last line is not that of a done twin |
| `EscrowRecovery.SyncedIsNow` | src/escrow.rs:457-485 | right after a successful write of such a run the moment is now |
| `EscrowRecovery.CarefulIsLossless` | src/escrow.rs:457-485 | such runs lose no line and let no number go by without its line |
| `EscrowRecovery.AppendLosesIff` | src/escrow.rs:457-473 | in every reachable state an append leaves the lost set empty if and only if it was and the pending batch fits what the journal ends with |
| `EscrowRecovery.CutLosesNothing` | src/escrow.rs:457-473 | a write of a fitting batch loses nothing wherever it stops |
| `EscrowRecovery.LineLostRun` | src/escrow.rs:457-473 | a run of snapshot, change, cut write, restart, the same change and a successful write after which a restart finds the entry unclaimed |
| `EscrowRecovery.BothLinesRun` | src/escrow.rs:457-473 | the same cut before the newline: the recovered claim and the next output are both gone |
| `EscrowCrash.ShadowedRun` | src/escrow.rs:970-975 | a run in which a restart loses the live entry: tracked, removed, tracked again, a rejection journalled for the first |
| `EscrowCrash.RestartIsFine` | src/escrow.rs:1450-1501 | after any run, lossy or not, what a restart loads has at most one live entry per outpoint and none given up |
| `EscrowRestart.ActIsJournalled` | src/escrow.rs:224-230 | every event of the watcher is a run of journalled changes of its book |
| `EscrowRestart.RunIsJournalled` | src/escrow.rs:224-230 | so is every run of events |
| `EscrowRestart.RestartIsSound` | src/escrow.rs:1450-1462 | after any run of changes, writes and crashes the watcher started from disk satisfies its invariant |
| `EscrowRestart.SoundAcrossRestart` | src/escrow.rs:457-485 | events, then a write that may stop anywhere, then a restart: what comes up is sound |
| `EscrowBook.AppendAfterCut` | src/escrow.rs:457-473 | for every batch: an append loses nothing if and only if no line of it was passed over and, onto an unterminated end, the first line is stale and an unterminated complete line comes again or was stale |
| `EscrowBook.AppendKnows` | src/escrow.rs:457-473 | exactly which lines a restart knows after an append of any batch |
| `EscrowBook.AppendToTerminated` | src/escrow.rs:457-473 | onto a terminated journal exactly the passed-over lines of the batch are lost and nothing known before |
| `EscrowBook.AppendToUnterminated` | src/escrow.rs:457-473 | onto an unterminated one exactly: the first unless known, the others when passed over, and the open line unless written again |
| `EscrowBook.InterruptedReads` | src/escrow.rs:457-473 | what a restart reads after a write that stops before, within or at the newline of any line |
| `EscrowBook.LineLostAfterCut` | src/escrow.rs:457-473 | after a write cut within a line a claimed entry comes back unclaimed |
| `EscrowBook.BothLinesLost` | src/escrow.rs:457-473 | after a write cut before a newline the recovered line and the next are both lost |
| `EscrowLedger.SlashByIndexIsScan` | src/escrow.rs:570-587 | slashing through the block index equals scanning all entries, for the red set and for reorganisations |
| `EscrowLedger.RebuiltIndexOk` | src/escrow.rs:413-422 | indexes rebuilt from the entries list every live outpoint and every live entry of every block, and nothing of another block |
| `EscrowLedger.EnterKeepsIndex` | src/escrow.rs:640-660 | tracking an untracked outpoint keeps the indexes right |
| `EscrowLedger.HitsExactly` | src/escrow.rs:970-975 | a response reaches position `i` if and only if its outpoint is in the claim and no earlier entry has it |
| `EscrowLedger.UpdateListed` | src/escrow.rs:970-1040 | a position reached once holds exactly what one judgement makes of it |
| `EscrowMachine.ReleaseKeeps` | src/escrow.rs:918-921 | releasing a claim frees exactly its own outpoints and keeps the others disjoint and exactly covered |
| `EscrowMachine.SubmitKeeps` | src/escrow.rs:884-890 | a claim of free distinct outpoints has a new id and keeps claims disjoint, at most four, and the busy set their union |
| `EscrowMachine.WaitingKeeps` | src/escrow.rs:686-705 | dropping the expired claims keeps the same |
| `EscrowRuns.RespondKeeps` | src/escrow.rs:906-1061 | a response of any kind keeps the invariant |
| `EscrowRuns.FindClaimKeeps` | src/escrow.rs:828-897 | forgiveness, selection and submission keep the invariant |
| `EscrowRuns.CompactKeeps` | src/escrow.rs:426-433 | compaction keeps it, every kept entry with its own story |
| `EscrowRuns.SeeBlockKeeps` | src/escrow.rs:529-603 | a whole block keeps it |
| `EscrowRuns.RemoveBlockKeeps` | src/escrow.rs:755-774 | a reorganised block keeps it, its outpoints free to be tracked again |
| `EscrowRuns.Act` | src/escrow.rs:529-1077 | every event of the watcher keeps the invariant |
| `EscrowRuns.BootSound` | src/escrow.rs:355-411 | a watcher started from entries with at most one live per outpoint, none given up, satisfies it |
| `EscrowRuns.SavedIsLoadable` | src/escrow.rs:476-485 | what a running watcher would save is loadable again |
| `EscrowRuns.OneClaimPerOutpoint` | src/escrow.rs:828-921 | in every run at most four claims, no outpoint in two, the busy set exactly their union |
| `EscrowRuns.ResponseReleasesOwn` | src/escrow.rs:906-921 | a response releases exactly its own claim's outpoints |
| `EscrowRuns.TimeoutReleasesOwn` | src/escrow.rs:686-705 | an outpoint is released by a timeout if and only if its claim waited 600 DAA |
| `EscrowRuns.NoSlashInAnyRun` | src/escrow.rs:963-1034 | in every run an entry that was not excluded or itself burned is slashed only after ten solo orphan rejections of its own |
| `EscrowRuns.BisectionInAnyRun` | src/escrow.rs:845-1034 | in every run a live entry is bisected at most six times between two expiries of its cap |
| `EscrowRuns.BatchRejectionHalves` | src/escrow.rs:963-985 | in every sound state a cap-setting rejection leaves each live member reached with at most half its previous cap |
| `EscrowRuns.ResponseReachesFirst` | src/escrow.rs:970-1040 | after a response each entry is judged once if it is first under an outpoint of the claim, and unchanged otherwise |
| `EscrowRuns.AcceptanceReaches` | src/escrow.rs:1065-1077 | an accepted claim marks a live member claimed if and only if no earlier entry has its outpoint |
| `EscrowTwins.AcceptanceMissesRetracked` | src/escrow.rs:755-774 | for every such output a run of events from an empty watcher (block seen, removed, seen again, claimed late, accepted) ends with the dead entry claimed and the live one not |
| `EscrowTwins.TwinsArise` | src/escrow.rs:606-665 | a chain block seen, removed and seen again leaves a done and a live entry of one outpoint |
| `EscrowRuns.CounterPastTenIff` | src/escrow.rs:985-1000 | a counter passes ten if and only if a solo orphan rejection reaches an entry at ten; that entry is done and its outpoint entered twice |
| `EscrowRuns.CountersInAnyRun` | src/escrow.rs:985-1000 | in every run, while no outpoint is entered twice, no counter passes ten unless its entry was loaded with more |
| `EscrowTwins.CounterPastTen` | src/escrow.rs:985-1000 | for every such output a run of events from an empty watcher with eleven solo orphan rejections ends with a counter of eleven and the live entry untouched |
| `EscrowRuns.SlashRedsIsScan` | src/escrow.rs:566-587 | a block's red set slashed through the index equals scans of all entries |
| `EscrowRuns.ClaimConserves` | src/escrow.rs:1083-1106 | inputs are the entries' outpoints in order, one window, and output plus fee is the inputs' sum |
| `EscrowRuns.SelectedNeverMixed` | src/escrow.rs:1087-1091 | a selected batch never fails for mixing windows |
| `EscrowWatcher.Watcher.constructor` | src/escrow.rs:355-411 | the fields are the machine's boot state, valid when the entries are loadable |
| `EscrowWatcher.Watcher.RebuildIndexes` | src/escrow.rs:413-422 | outpoint set and block index are those of the entries |
| `EscrowWatcher.Watcher.Compact` | src/escrow.rs:426-433 | the fields make the machine's compaction step |
| `EscrowWatcher.Watcher.ExpireInFlight` | src/escrow.rs:686-705 | the fields make the machine's timeout step |
| `EscrowWatcher.Watcher.SlashRedBlocks` | src/escrow.rs:566-587 | the fields make the machine's red-set step |
| `EscrowWatcher.Watcher.TrackBlockEscrows` | src/escrow.rs:606-665 | the fields make the machine's tracking step, each paying output at most once |
| `EscrowWatcher.Watcher.TrackInferenceEscrow` | src/escrow.rs:1175-1211 | the fields make the machine's inference-tracking step |
| `EscrowWatcher.Watcher.FindNextClaim` | src/escrow.rs:828-897 | forgiveness, selection, building and bookkeeping are the machine's step, and the transaction is its result |
| `EscrowWatcher.Watcher.HandleBlock` | src/escrow.rs:529-603 | the whole block is the machine's step and keeps the watcher valid |
| `EscrowWatcher.Watcher.OnSubmitResponse` | src/escrow.rs:906-1061 | the claim named or mentioned is matched, the machine's step made, and an accepted amount is what the claimed total grew by |
| `EscrowWatcher.Watcher.MarkEntriesClaimed` | src/escrow.rs:1065-1077 | the returned amount is exactly the growth of the claimed total, duplicates included |
| `EscrowWatcher.Watcher.StartStateValidation` | src/escrow.rs:712-729 | exactly the blocks of live entries are awaited |
| `EscrowWatcher.Watcher.OnBlockValidated` | src/escrow.rs:734-751 | the machine's validation step |
| `EscrowWatcher.Watcher.OnChainBlocksRemoved` | src/escrow.rs:755-774 | the machine's reorganisation step |
| `GpuDrain.StepKeeps` | src/pom_gpu.rs:1556-1635 | with at most one worker every step of every thread keeps the protocol's invariant |
| `GpuDrain.FreedOnlyWithoutHandles` | src/pom_gpu.rs:1583-1620 | in every interleaving a load or unload that frees the engine's weights happens only when no handle to a miner of the card exists, and no other step touches them |
| `GpuDrain.InvSafe` | src/pom_gpu.rs:1770-1782 | every walk reads weights of the load the engine still hosts |
| `GpuDrain.QuarantineHolds` | src/pom_gpu.rs:1600-1635 | while a quarantined miner is held, no step frees, builds, installs or ends the quarantine |
| `GpuDrain.QuarantineLasts` | src/pom_gpu.rs:1600-1635 | over any number of steps in which the stuck walk does not let go, quarantine and weights stay |
| `GpuDrain.QuarantineEnds` | src/pom_gpu.rs:1622-1635 | once it has let go, the worker can rebuild |
| `GpuDrain.SafeIffOneWorker` | src/pom_gpu.rs:2056-2075 | every walk in every reachable state is safe if and only if the card has at most one worker |
| `Segments.FindSegment` | cuda/pom_mine.cu:583-591 | the kernel's binary search finds the segment holding the chunk |
| `Segments.WalkUpExact` | cuda/pom_mine.cu:784-793 | the linear search ends in the chunk's segment if and only if it does not start past it |
| `Segments.BuildLut` | src/pom_gpu.rs:138-176 | fails exactly past 65535 segments; else at most 16385 buckets, as fine as that allows, each naming the last boundary at or below its first chunk |
| `Segments.FreshLutNotPast` | src/pom_gpu.rs:159-172 | a bucket never points past the segment of any of its chunks |
| `Segments.FreshLutResolves` | cuda/pom_mine.cu:784-793 | with a freshly built table the fast lookup finds the segment of every chunk |
| `Segments.CachedLutResolvesIff` | src/pom_gpu.rs:150-157 | a reused table resolves a chunk if and only if its bucket's boundary in the new table is not above the chunk |
| `Segments.StaleLutMisses` | src/pom_gpu.rs:150-157 | two blobs with equal counts for which it does not |
| `Segments.PadSegment` | src/pom_gpu.rs:1331-1352 | below the weight cap every chunk keeps its segment and address, above it resolves to the pad at its displacement, and the table is well formed |
| `Gather.SourceExact` | src/pom_gpu.rs:1967-2000 | the engine's copy is used if and only if exactly one resident tensor has the name and it has the exact size |
| `Gather.PlanCanonicalGather` | src/pom_gpu.rs:1967-2000 | the loops plan that source for every tensor, with exact byte totals |
| `Gather.GatheredShape` | src/pom_gpu.rs:1228-1264 | the device boundaries are the host index's rows and the total is its chunk count |
| `Gather.GatherReadsCanonical` | src/pom_gpu.rs:1228-1264 | every chunk number resolves on the device to the bytes the host index has there |
| `Gather.LoadLlama` | src/pom_gpu.rs:1209-1306 | refuses exactly past the upload budget, without a needed index, without chunks, or when a sampled chunk differs from the index; else builds those tables |
| `Gather.ByteGate` | src/pom_gpu.rs:1289-1304 | the sampling loop accepts exactly when every sampled chunk reads on the device as in the index |
| `Gather.GateAdmitsFaithful` | src/pom_gpu.rs:1289-1304 | an engine that holds the file's bytes is never refused |
| `Base58.CarryThrough` | src/ipfs.rs:75-101 | digits, carry and rest represent `n * mul + add` at every step, the carry below `mul` |
| `Base58.Accumulate` | src/ipfs.rs:140-160 | after all input digits the vector is the number's canonical digits |
| `Base58.ConvertRoundTrip` | src/ipfs.rs:75-160 | converting there and back gives the same digits if and only if one is not zero |
| `Base58.ConvertGrowsOnZeros` | src/ipfs.rs:140-160 | a string of zeros comes back one zero longer |
| `Base58.Base58Encode` | src/ipfs.rs:140-160 | the loops compute the encoding |
| `Base58.Base58Decode` | src/ipfs.rs:75-101 | the loops compute the decoding, none for a character outside the alphabet |
| `Base58.DecodeOfEncode` | src/ipfs.rs:75-160 | decoding an encoding gives the bytes if and only if one is not zero |
| `Base58.EncodeOfDecode` | src/ipfs.rs:75-160 | encoding a decoding gives the text if and only if it has a character other than '1' |
| `Base58.CidRoundTrip` | src/ipfs.rs:65-138 | every 34-byte sha2-256 multihash survives the trip through its CIDv0 text |
| `Base58.CidIsCanonical` | src/ipfs.rs:65-138 | a text accepted as CIDv0 is the only text of its multihash |
| `Target.LimbFits` | src/target.rs:97-117 | no limb addition of the shift overflows 64 bits |
| `Target.Shl` | src/target.rs:97-117 | the loop computes the shifted limbs |
| `Target.ShlExact` | src/target.rs:97-117 | for every shift the value is the old one times `2^shift` modulo `2^256` |
| `Target.CompactExact` | src/target.rs:4-24 | every 32-bit compact target decodes to its formula |
| `Target.U256FromCompactTarget` | src/target.rs:4-24 | the decoding computes it |
| `Target.FromLeBytesValue` | src/target.rs:46-61 | limbs read from bytes denote the bytes' number, and write back the same bytes |
| `Target.LeLeqLoop` | src/pom.rs:383-393 | the byte loop computes comparison from the most significant byte |
| `Target.OrdersAgree` | src/target.rs:87-95 | byte order, limb order and the order of the numbers agree |

## Left out

- CUDA kernels beyond the two segment lookups, module loading, llama.cpp calls and SIMD: foreign code; the scalar transition and the host reference walk are taken as the meaning.
- Hash, signature and keccak internals: `blake` and `mix64` are parameters; a claim transaction's id is its input list.
- Seeds of the eras (`pom_block_seed` and its successors) and era gates: the walk starts from a given seed and given era flags.
- GGUF header parsing, tree-file metadata and cache reuse, downloads, IPFS, permissions, atomic rename: I/O; the model starts from a tensor list and from whole snapshot and append steps.
- Machine integer width of DAA scores, amounts, chunk counts and the 8-bit orphan counter: unbounded here, so an overflow is not seen.
- Texts: a rejection is the result of the source's substring tests, with the listed burned outputs already in the entries' own case, an outpoint key is a pair, script comparison lower-cases ASCII only.
- `maybe_flush` timing: when the journal or snapshot is written is left to the crash machine, which allows it at any point.
- Journal text below lines: a piece of a line, and two joined texts, are taken not to parse; a cut inside a multi-byte character, which makes the whole load fail, is not modelled.
- Service-bond script bytes, sighash and signatures of the claim transaction: only inputs, window and amount are modelled.
- `pending_escrow`, status lines and statistics: they change nothing.
- One card at a time in `GpuDrain`: every map, lock and engine slot of the source is keyed by device, and a thread at work on another card is idle here.
- Poisoned mutexes and inference pause counts: the pause flags only forbid steps, and safety is proved without them.
- Generation over the engine's weights: only the walks' handles are tracked, not the inference call itself.
- Soundness of the v1 and v3 walks as a whole: spot checks make it probabilistic; what is proved is the verifier's exact demand, completeness, and that every opened chunk, column and snippet is the blob's or gives a collision.
- The batch tuner, tier tables, out-of-memory downgrade, miner manager, TUI and plugins: plumbing, timing and fixed data.
- MatrixProof.BuildProofV3: takes the dump as a list of states and a list of snippets instead of two flat byte buffers.
- Gather.GatherReadsCanonical: that a uniquely named resident tensor of the right size holds the file's bytes is a hypothesis about the engine (`Faithful`).
- ClaimBatch.SelectClaimBatch: sorting and deduplicating the windows is an insertion function, not a sort loop.
