# Block-A-File: the ledger and the block tree

Block-A-File keeps a file system on a blockchain. Every miner holds a tree of blocks, decides which blocks
may extend it, and reads balances and files off a chain of the tree. This project models that core and
proves what it keeps.

- **Replay** (`FileSystemState`, `AccountsState`, `RefundWalk`, `Limits`). A chain is folded into files
  and balances. Deleting a file walks the chain backwards and refunds its fees.
- **What replay means** (`FileLives`, `Conservation`, `ConfirmedView`, `EarlyAppends`, `ViewRecords`).
  Replay is compared with a definition of each file's current life, coins are conserved, and the confirmed
  view lags behind full replay in an exact way.
- **The incremental validator** (`Overlay`, `CachedContents`, `Deltas`, `Rebuild`, `BlockChainValidator`).
  A block is judged against a cached state with an overlay of changed files and a map of balance
  differences. This is a different algorithm from replay, and it must reach the same verdict and the same
  state.
- **The job filter** (`JobSet`, `JobFilter`). Pending operations are filtered until the list is stable;
  `JobFilter` says which survive, in terms of replay.
- **The tree** (`MRootTree`, `BlockChainTree`), **fetching missing ancestors** (`Queue`, `TreeManager`),
  **ids and proof of work** (`Blocks`, `ByteFormat`, `ProofOfWork`, `Mining`, `WorkInRuns`).
- **Every run** (`Ledger`, `Safety`, `Runs`, `Convergence`; `Divergence`, `Thresholds` and `FullFiles` for
  runs that go wrong, and `Witnesses` for their existence). `Ledger` is the tree and the cache as values,
  with one step for each call that the miner makes under its lock. The classes are proved to carry out
  exactly these steps, and the theorems about all runs are proved of the steps.

Go's in-place maps are values that methods reassign, and slices of pointers to operations are sequences of
values. Go strings are byte sequences. A block's id is its digest (the hexadecimal form is a bijection).
The md5 function is a parameter: nothing is assumed of it, and in particular ids are not assumed
injective, except in `Convergence`, which asks that the given blocks have different ids. `SerializeOps`
shows why: the byte format leaves out the kind and the creator of an operation.

## Where the code does not do what it is meant to

The code is modelled as it is. Each point below has a lemma with the failing input and a lemma that says
when the code is right.

- The overlay counts a file's records modulo 65536 and looks for the maximum only in the snapshot before
  the block. There are runs in which the tree accepts a 65536th record (`TreeAcceptsTooMany`) and refuses
  a block that replays (`TreeRefusesRenewal`). Its verdict is that of replay exactly under two conditions
  that are visible before the call (`OverlayAgreesWithReplay`, `VerdictsDiffer`).
- The cached data of a file drops the records before the block's last append (`CachedDataDiffers`), and
  the cached creator of a file created again in a block can be the earlier one (`CachedCreatorDiffers`).
  The cache agrees with replay exactly under conditions on the block (`CachedDataAgreesIff`,
  `CachedCreatorAgreesIff`). The validator reads neither field.
- A free operation (creation costs 0 in the configuration) of an account that never mined is accepted by
  the tree and fails replay (`FreeOpOfStranger`). `DeltasAgreeWithReplay` has the exact condition.
- Records in a NoOp block are charged and applied by the validator and ignored by replay
  (`NoOpCreationIsAccepted`). An accepted NoOp block with no append numbered 65535 and no free operation
  of a stranger leaves the cache right exactly when its records change neither the files with their record
  counts nor the fees that any account holds (`NoOpKeepsCacheIff`); without deletions that means exactly
  when it has no records (`NoOpRecordsDiverge`). Miners leave these records empty
  (miner/block_calculators/block_calculators.go:97).
- Rebuilding the cache goes through the confirmation thresholds, while the incremental update counts every
  operation. With a creation threshold above 0 there are runs in which the tree accepts a second creation
  of a file (`UnsettledRebuildAcceptsDuplicate`), and with only the append threshold above 0 a second
  append of record 0 (`UnsettledRebuildAcceptsDoubleAppend`): from then on full replay of every extension
  fails, and so does every rebuild once the second operation is confirmed. The block in between need not
  be accepted, because the cache stays under the parent of a refused block
  (`RefusedBlockLetsDuplicateIn`). With more confirmations for creations than for appends a rebuild can
  fail on a chain that replays, and the tree then refuses every block on top of it
  (`EarlyAppendBlocksTip`). For every chain that replays and every pair of thresholds `RebuildIsFullIff`
  says exactly when a rebuild succeeds and when it is right, `RebuildIsFullIffSettled` that, if no block
  that a threshold still hides deletes a file, it is right exactly when every operation is confirmed, and
  `RebuildChangesNoVerdictIff` that it judges every block as replay does exactly when it is right. The
  theorems about all runs ask for thresholds of 0 or for runs in which every rebuild for a chain that
  replays has the files of full replay, as it has for chains with every operation confirmed
  (`SettledRebuildsAsReplay`) and in runs that never rebuild after genesis (`GenesisRebuildsAreOrderly`).
- With a threshold of either kind above 0 convergence and independence of history fail as well: the same
  four blocks in two parent-first orders give trees with different nodes, and the verdict on one block is
  different although its parent's chain is the same (`OrderMatters`, `OrderMattersForAppends`).
  `OrderDoesNotMatter` and `VerdictIsHistoryIndependent` hold when every rebuild has the files of full
  replay, in particular with thresholds of 0.
- The confirmed view exists for every chain that replays exactly when creations need no more confirmations
  than appends (`ViewExistsIff`; `EarlyAppendFails` has a failing chain for every other pair of
  thresholds).
- `ValidateBlock` of the tree answers true when the block is rejected, as its contract says
  (miner/state/tree_manager.go:364).
- An odd number of hexadecimal zeros asks for one bit more than its name says (`OddTargetIsStricter`), and
  the read handler's 16-bit offsets are right for the first 127 records only (`ReadOffsetsWrap`).
- A refund trusts that the operations before it are legal (miner/state/block_chain_state.go:140). On any
  log it pays the appends since the file's last creation or deletion, and that creation
  (`WalkPaysSinceBoundary`); on a log that replays these are the fees held (`RefundPaysCurrentLife`).
- `blockAdderHelper` ignores a rejection of the block once its parent had to be fetched, so it can answer
  true without storing the block (`TrueWithoutTheBlock`, `TrueWithoutTheBlockHappens`).
  `TrueAndStoredIffFetchable` says exactly when the answer true comes with the block stored.

## Model

| member | source | states |
|---|---|---|
| `Blocks.SerializeBlock` | crypto/block.go:55-71 | the loop with its reused four-byte buffer writes the byte format of the block |
| `Blocks.NonceRoundTrip` | crypto/block.go:67-70 | the last four bytes decode to the nonce, and another nonce changes these four bytes only |
| `Blocks.IdForgetsKindAndCreator` | crypto/block.go:60-65 | blocks that differ in kinds and creators of operations have the same id, for every hash |
| `ByteFormat.FieldPositions` | crypto/block.go:55-71 | bytes 0 to 16 are the parent id; record k starts at 16 plus the sum of (name length + 516) over the records before it and is its name, its 512 data bytes, two bytes that decode to its number and two zeros; then come the miner and, last, four bytes that decode to the nonce |
| `ByteFormat.BytesDetermineFields` | crypto/block.go:55-71 | blocks with the same bytes and the same name lengths have the same parent, names, data, numbers, miner and nonce |
| `ByteFormat.IdsTellApart` | crypto/block.go:73-89 | so have blocks with the same id, unless the hash collides on their bytes |
| `ByteFormat.GenesisHoldsItsId` | crypto/block.go:73-83 | a genesis block has the id that it holds, whatever else is in it; every other block has the hash of all its bytes |
| `ProofOfWork.Valid` | crypto/block.go:93-106 | the mask loop accepts a digest iff the big-endian number is divisible by 2^e, with e = 4z for even z and 4z+1 for odd z, for every integer z |
| `ProofOfWork.TrailingIsDivisible` | crypto/block.go:96-104 | checking bytes from the end is divisibility by a power of two |
| `ProofOfWork.MaskIsRemainder` | crypto/block.go:97-101 | a mask of k ones, applied bit by bit, keeps the remainder modulo 2^k |
| `ProofOfWork.TargetsAreNested` | crypto/block.go:93-106 | a digest valid for z is valid for every smaller z, and its last z hexadecimal digits are 0 |
| `ProofOfWork.OddTargetIsStricter` | crypto/block.go:98-100 | a digest can end in a hexadecimal 0 and fail the target of one zero |
| `WorkInRuns.EveryBlockCarriesWork` | crypto/block.go:108-122 | after every run the digest of each Regular block of each chain is divisible by the power of two of the operation target, and of each NoOp block by that of the NoOp target |
| `WorkInRuns.WithoutWorkIsRefused` | miner/state/block_chain_validator.go:149-153 | a block that misses the target of its own kind is not added and changes nothing |
| `WorkInRuns.SearchGivesWork` | crypto/block.go:124-142 | a search for the target of its kind succeeds iff the block carries that work |
| `Mining.PatchNonce` | crypto/block.go:136-138 | overwriting the last four bytes in place gives the serialization of the block with the new nonce |
| `Mining.Candidate.FindNonce` | crypto/block.go:129-142 | only the nonce changes; a search that ends before the stop signal leaves a block whose re-serialized hash is valid; all earlier attempts failed; the counter wraps |
| `Mining.EveryNonceIsTried` | crypto/block.go:129-142 | the first 2^32 rounds of the search try every nonce, in order from the random start |
| `FileSystemState.EvaluateFSBlockOps` | miner/state/file_system_state.go:102-156 | the loop is the step-by-step application of the operations, with every error case |
| `FileSystemState.GenerateFilesystem` | miner/state/file_system_state.go:52-100 | the loop over blocks is the replay with each block's two confirmation flags |
| `FileSystemState.FullFilesystemIsReplayed` | miner/state/file_system_state.go:73-99 | full replay depends on the flat log of regular blocks only, and fails on a second genesis block |
| `Limits.CreationIsLegalIff` | miner/state/file_system_state.go:109-125 | replay and the overlay create a fresh name iff it has at most 64 bytes; the file is empty and belongs to the creator of the operation |
| `Limits.AppendIsLegalIff` | miner/state/file_system_state.go:126-142 | both append iff the file exists with fewer than 65535 records and the append has the next number; 512 bytes are added |
| `Limits.PaymentIsLegalIff` | miner/state/block_chain_state.go:189-202 | a known account pays a fee iff its balance covers it, down to 0 |
| `Limits.BalancesNeedGenesisFirst` | miner/state/block_chain_state.go:69-115 | balances exist only if the first block, and no other, is a genesis block |
| `FileLives.ReplayIsLives` | miner/state/file_system_state.go:107-155 | a log replays iff each operation is legal after those before it; the resulting files are exactly those alive, with creator, count and all data |
| `FileLives.AppendIsNumbered` | miner/state/file_system_state.go:129-138 | the appends of the current life carry the numbers 0, 1, 2, ... in order |
| `FileLives.FlattenPositions` | miner/state/file_system_state.go:137-138 | data has 512 bytes per record and record k is at bytes 512k to 512k+512 |
| `FileLives.RecordsReadBack` | miner/state/file_system_state.go:126-142 | in full replay, where both thresholds are 0, an append that is part of its file's life is read back at its own number, within the data and within 32 bits |
| `FileLives.RecordsComeFromAppends` | miner/state/file_system_state.go:126-142 | in full replay every record k of a file is the data of an append numbered k of its current life |
| `ViewRecords.ViewIsReplayed` | miner/state/file_system_state.go:73-99 | for every pair of thresholds the view is the full replay of the operations that count |
| `ViewRecords.ViewLogWithoutThresholds` | miner/state/file_system_state.go:84-91 | with thresholds of 0 all operations of regular blocks count |
| `ViewRecords.ViewIsLives` | miner/state/file_system_state.go:107-155 | the files of a view are exactly those alive after the operations that count, a subsequence of the chain's, with creator, count and all data |
| `ViewRecords.ViewRecordsComeFromAppends` | miner/state/tree_listener.go:42-47 | for every pair of thresholds: data is 512 bytes per record and below 2^32, and bytes 512k to 512k+512 are the data of an append of the chain numbered k |
| `ViewRecords.ViewRecordsReadBack` | miner/state/tree_listener.go:42-47 | an append that counts and is part of its file's life is shown at its own number, for every pair of thresholds |
| `ViewRecords.ViewRecordsAreAlive` | miner/state/tree_listener.go:25-47 | with confirmsCreate <= confirmsAppend that append belongs to the file's life in the first len-confirmsCreate blocks |
| `ViewRecords.ListenerReportsIff` | miner/state/tree_listener.go:24-50 | the append listener reports iff the file's life among the counted operations has its creator and, at its number, its data |
| `FileLives.ReadOffsetsWrap` | miner/instance/miner_instance.go:235-236 | the 16-bit offsets are those of record k iff k <= 126, and the slice of record 127 is inverted |
| `ConfirmedView.ViewIsWindow` | miner/state/file_system_state.go:84-91 | the confirmed view is full replay of the blocks with enough confirmations for appends, followed by the creations and deletions of the next blocks |
| `ConfirmedView.ViewIsTotalAndLags` | miner/state/file_system_state.go:73-99 | the view of a replayable chain never fails, has the files of the first len-confirmsCreate blocks and a prefix of each file's records |
| `ConfirmedView.EqualThresholdsDropSuffix` | miner/state/file_system_state.go:84-91 | with equal thresholds c the view is full replay of all but the last c blocks |
| `ConfirmedView.DeepBlockIsVisible` | miner/block_calculators/block_calculators.go:121-133 | for every pair of thresholds: files alive after a block that has both numbers of confirmations and not deleted later are in the view, if there is one, with their records |
| `ConfirmedView.ViewExistsIff` | miner/state/file_system_state.go:82-91 | the view exists for all replayable chains iff confirmsCreate <= confirmsAppend or confirmsCreate <= 0 |
| `ConfirmedView.EarlyAppendFails` | miner/state/file_system_state.go:127-141 | for every other pair of thresholds: every chain with a creation and an append in its second block and the right number of empty blocks on top replays and has no view |
| `EarlyAppends.EarlyViewExistsIff` | miner/state/file_system_state.go:84-91 | with appends confirmed no later than creations: the view exists iff every append between the thresholds fits a file below both, and then these appends are added |
| `EarlyAppends.ViewIsStable` | miner/state/file_system_state.go:84-91 | for every pair of thresholds: creator and records in the view stay at their positions in the view of every replayable extension, if there is one, that does not delete the file at or after the first block whose creations do not count |
| `AccountsState.RefundWithinBlock` | miner/state/block_chain_state.go:167-172 | walking one block's operations backwards is the refund over the log, and stops where it stops |
| `AccountsState.RefundOnChain` | miner/state/block_chain_state.go:141-187 | the two nested backward loops are the refund over the flat log before the deletion |
| `RefundWalk.WalkPaysSinceBoundary` | miner/state/block_chain_state.go:140-187 | on any log, legal or not, each account gets the append fee for each of its appends since the last creation or deletion of the file, and the creation fee if that last one is its creation |
| `AccountsState.EvaluateBalanceBlockOps` | miner/state/block_chain_state.go:117-138 | the loop settles the operations one by one, with the failing payments |
| `AccountsState.GenerateState` | miner/state/block_chain_state.go:69-115 | the loop over blocks is the balance replay, rewards first |
| `AccountsState.BalancesSnoc` | miner/state/block_chain_state.go:92-113 | replaying one more block continues from the balances of the chain before it |
| `Conservation.RefundPaysCurrentLife` | miner/state/block_chain_state.go:141-187 | the walk pays each account exactly the fees it holds in the file's current life, across earlier delete and re-create cycles |
| `Conservation.OpKeepsWealth` | miner/state/block_chain_state.go:119-136 | no operation changes balance plus refundable fees, of one account or of all |
| `Conservation.BlockAddsReward` | miner/state/block_chain_state.go:94-112 | a block changes that sum by the miner's reward only |
| `Conservation.BalanceIsMinedMinusHeld` | miner/state/block_chain_state.go:69-115 | balance = mined rewards - createFee per live file created - appendFee per live record appended |
| `Conservation.CoinsAreConserved` | miner/state/block_chain_state.go:69-115 | all balances plus createFee + appendFee * NumberOfRecords over live files are the rewards minted |
| `Conservation.ReplayLeavesNoDebts` | miner/state/block_chain_state.go:189-210 | with fees and rewards >= 0 no balance is negative |
| `Conservation.AccountsAreMiners` | miner/state/block_chain_state.go:189-210 | the accounts of a replayed chain are exactly its miners, and they paid for every creation and append |
| `Overlay.ValidateNewFSBlockOps` | miner/state/block_chain_validator.go:259-404 | the loop over res, deletedFiles and validOps is the scan, with every rejecting branch |
| `Overlay.OverlayAgreesWithReplay` | miner/state/block_chain_validator.go:259-404 | without an append numbered 65535 the overlay accepts a block iff replay accepts it op by op and no append hits a file full in the snapshot; folding the overlay in gives the same files and counts |
| `Overlay.VerdictsDiffer` | miner/state/block_chain_validator.go:310-368 | the exact condition of agreement, from each side |
| `Overlay.OverlayAcceptsTooMany` | miner/state/block_chain_validator.go:312-345 | two appends to a file with 65534 records are accepted and the count wraps to 0 |
| `Overlay.OverlayRefusesFreshFile` | miner/state/block_chain_validator.go:312-317 | delete, create and append of a full file in one block replay but are refused |
| `FullFiles.TreeAcceptsTooMany` | miner/state/block_chain_validator.go:312-345 | a run: a block creates a file with 65534 records, the next one appends records 65534 and 65535, both are accepted, the cached count is 0 and the chain does not replay |
| `FullFiles.TreeRefusesRenewal` | miner/state/block_chain_validator.go:312-317 | a run: a full file is deleted, created and appended to in a block that replays and is refused |
| `Witnesses.FillRunExists` | miner/state/block_chain_validator.go:310-368 | both runs exist: a file can be filled with any number of records |
| `CachedContents.CachedDataAgreesIff` | miner/state/block_chain_validator.go:340-368 | on a block accepted by both sides, the cached data of a live file is that of replay iff the block's last operation on it is no append or the append of record 0 |
| `CachedContents.CachedCreatorAgreesIff` | miner/state/block_chain_validator.go:343 | the cached creator of a live file is that of replay iff the block does not create a file of the snapshot again for another creator and then append to it |
| `CachedContents.CachedDataDiffers` | miner/state/block_chain_validator.go:340-348 | an append to a file with a record drops that record from the cache |
| `CachedContents.CachedCreatorDiffers` | miner/state/block_chain_validator.go:340-345 | delete, create by another account and append leave the first creator in the cache |
| `BlockChainValidator.UpdateFiles` | miner/state/file_system_state.go:20-27 | storing entries in any order and dropping deleted names gives the folded files |
| `Deltas.Update` | miner/state/block_chain_state.go:32-36 | adding the differences in any order gives the sums, over the accounts of both maps |
| `Deltas.RefundAddsDelta` | miner/state/block_chain_validator.go:436-463 | a refund into the differences is the refund into the balances |
| `Deltas.DeltasAgreeWithReplay` | miner/state/block_chain_validator.go:424-484 | on operations legal for the files, the difference check accepts and each free operation has a known payer iff replay accepts; the summed maps are equal |
| `Deltas.ScanKeepsOrder` | miner/state/block_chain_validator.go:411-420 | operations that pass from lower differences pass from higher ones |
| `JobSet.FilterOnceShrinks` | miner/state/block_chain_validator.go:232-248 | one pass keeps a subsequence, and its length stays iff both filters keep everything |
| `JobSet.FilteredJobsPass` | miner/state/block_chain_validator.go:231-249 | the result is a subsequence that both filters leave whole |
| `JobSet.AcceptableJobsAreKept` | miner/state/block_chain_validator.go:231-249 | nothing is dropped iff the input passes both filters |
| `JobSet.MinedJobsPass` | miner/state/block_chain_validator.go:411-420 | the filtered jobs pass both checks with the miner's reward added |
| `JobSet.ResultOfPasses` | miner/state/block_chain_validator.go:231-249 | the result is what as many passes as there are jobs leave, or any larger number of passes |
| `JobSet.OnePassIsEnough` | miner/state/block_chain_validator.go:231-249 | a list that one pass leaves acceptable is the result |
| `JobSet.DroppedByAPass` | miner/state/block_chain_validator.go:231-249 | every dropped job is dropped by a pass over a list that contains the result |
| `JobFilter.FileFilterKeepsLegal` | miner/state/block_chain_validator.go:259-404 | from files with the shape of replay, the file filter keeps a job iff replay accepts it after the jobs kept before it and it does not append to a file that was full before the list; jobs numbered 65535 aside |
| `JobFilter.AccountFilterKeepsPaid` | miner/state/block_chain_validator.go:424-484 | the account filter keeps a creation or an append iff the balance that is left covers its fee, and every deletion, whose refund counts towards later payments |
| `JobFilter.OnePassKeepsAcceptable` | miner/state/block_chain_validator.go:231-249 | one pass keeps the jobs that replay accepts one after the other and then those that can be paid one after the other |
| `JobFilter.SurvivingJobs` | miner/state/block_chain_validator.go:231-249 | the jobs that survive are those that as many such passes as there are jobs keep |
| `JobFilter.SecondCreationIsDropped` | miner/state/block_chain_validator.go:231-249 | of two jobs that create one new file, the first survives if its account can pay |
| `Deltas.UnknownOpEmpties` | miner/state/block_chain_validator.go:464-465 | an operation of unknown kind anywhere empties the list; without the parent block a list with a deletion fails |
| `Rebuild.SettledRebuildIsFull` | miner/state/block_chain_validator.go:164-181 | a rebuild from a chain whose operations are all confirmed is full replay |
| `Rebuild.RebuildIsFullIff` | miner/state/block_chain_validator.go:164-181 | for every chain that replays and every pair of thresholds: exactly when a rebuild succeeds, and when it has the files and counts of full replay |
| `Rebuild.RebuildIsFullIffSettled` | miner/state/block_chain_validator.go:164-181 | for every pair of thresholds, if no block that a threshold still hides deletes a file: a rebuild succeeds with the files and counts of full replay iff every operation is confirmed |
| `MRootTree.PathIsLinked` | miner/state/block_chain_validator.go:507-519 | the path of a node has heights 0, 1, 2, ..., is linked by child pointers and its prefixes are paths |
| `MRootTree.TransverseChain` | miner/state/block_chain_validator.go:507-519 | filling and reversing the array in place gives the genesis-first path, within bounds |
| `MRootTree.MRootTree.Find` | shared/datastruct/mrootedtree.go:66-69 | the node stored under an id, or null |
| `MRootTree.MRootTree.PrependElement` | shared/datastruct/mrootedtree.go:73-121 | keeps the tree invariant; fails iff the id is taken, leaving the tree alone but the head's parent list longer; the new head is the latest node of maximal height; exactly one chain is added |
| `MRootTree.LeavesAfter` | shared/datastruct/mrootedtree.go:102-111 | inserting a node adds it to the nodes nobody extends and removes the node it extends |
| `MRootTree.MRootTree.PlaceRoot` | shared/datastruct/mrootedtree.go:102-111 | the root list stays free of repetition, exact and inverse to its index |
| `MRootTree.MRootTree.RaiseHead` | shared/datastruct/mrootedtree.go:113-118 | the head stays a node of maximal height, the newer one on a tie |
| `MRootTree.ChainsAfter` | shared/datastruct/mrootedtree.go:76-100 | inserting a node adds its chain and leaves every other chain alone |
| `BlockChainValidator.NewAccountsState` | miner/state/block_chain_state.go:38-67 | the balances of a node are the replay of its chain |
| `BlockChainValidator.NewFilesystemState` | miner/state/file_system_state.go:34-50 | the files of a node are the confirmed view of its chain |
| `BlockChainValidator.Charge` | miner/state/block_chain_validator.go:468-481 | balance plus difference is compared with the fee, and a refused payment still enters the account |
| `BlockChainValidator.BlockChainValidator.ValidateNewAccountBlockOps` | miner/state/block_chain_validator.go:424-484 | the loop is the account scan, with refunds through the appended block and the unknown-parent branch |
| `BlockChainValidator.BlockChainValidator.GenerateHistory` | miner/state/block_chain_validator.go:164-181 | the cache is kept or rebuilt for the parent, and left alone when a rebuild fails; the accounts error is set iff the balances do not replay, the files error iff they do and there is no confirmed view |
| `BlockChainValidator.BlockChainValidator.ValidateOn` | miner/state/block_chain_validator.go:183-198 | both checks pass iff the block is judged acceptable; the cache moves to the block only then |
| `BlockChainValidator.BlockChainValidator.Validate` | miner/state/block_chain_validator.go:135-199 | tree, cache and answer are those of the `Validate` step, in every branch |
| `Ledger.CheckMovesCache` | miner/state/block_chain_validator.go:135-199 | when the cache stays (known id, genesis, no proof of work, unknown parent, failed rebuild), when it is left under the parent (refused by the checks) and when it moves to the block (accepted); a check never changes the chains |
| `Ledger.FilterMovesCache` | miner/state/block_chain_validator.go:202-229 | filtering jobs leaves the state of the head cached, or nothing changed and no job if it cannot be loaded |
| `Ledger.AddChangesOneChain` | miner/state/block_chain_validator.go:135-199 | an accepted block has a new id and adds its own chain only; a genesis block is accepted iff the tree is empty, any other block only on a known parent |
| `BlockChainValidator.BlockChainValidator.ValidateJobSet` | miner/state/block_chain_validator.go:202-250 | cache and result are those of the job step; no error is reported iff nothing is dropped; each error is set iff some pass rejects a job in its filter, or the rebuild fails on its side |
| `BlockChainValidator.BlockChainValidator.FilterToFixpoint` | miner/state/block_chain_validator.go:231-249 | the loop ends and reaches the stable list; the files error is set iff the file filter rejects a job in some pass, the accounts error iff the account filter does |
| `Safety.JudgeIsReplay` | miner/state/block_chain_validator.go:183-196 | from a coherent cache, acceptance within the limits iff the extended chain replays and no append hits a full file; the new cache is the replay of the extended chain |
| `Safety.AccountsAgree` | miner/state/block_chain_validator.go:406-422 | the reward and difference map agree with replay of the extended chain, verdict and balances |
| `Safety.FilesAgree` | miner/state/block_chain_validator.go:252-257 | the overlay agrees with replay of the extended chain, verdict and files |
| `Divergence.NoOpKeepsCacheIff` | miner/state/block_chain_validator.go:183-196 | an accepted NoOp block keeps the cache coherent iff its records change neither files, counts nor any account's held fees |
| `Divergence.NoOpRecordsDiverge` | miner/state/block_chain_validator.go:183-196 | without deletions: iff it has no records |
| `Divergence.NoOpCreationIsAccepted` | miner/state/block_chain_validator.go:183-196 | a NoOp block with a creation is added to the tree, its chain replays and the cache is not that replay |
| `Divergence.FreeOpOfStranger` | miner/state/block_chain_validator.go:468-481 | with free creations the tree accepts a creation for an account that never mined, and the chain does not replay |
| `Thresholds.UnsettledRebuildAcceptsDuplicate` | miner/state/block_chain_validator.go:174 | with a creation threshold above 0: after a creation, a sibling block and a second creation on top of the first, all accepted, every extension fails full replay, and the rebuild once the second creation is confirmed |
| `Witnesses.DuplicateRunExists` | miner/state/block_chain_validator.go:174 | such a run exists, for every pair of thresholds |
| `Thresholds.RefusedBlockMovesCache` | miner/state/block_chain_validator.go:174-191 | a refused block on genesis leaves the chains alone and the cache under genesis |
| `Thresholds.RefusedBlockLetsDuplicateIn` | miner/state/block_chain_validator.go:174-191 | so with a creation threshold above 0 a refused block between the two is enough for the second creation to be accepted, and the chain does not replay |
| `Witnesses.RefusedRunExists` | miner/state/block_chain_validator.go:174-191 | such a run exists, for every pair of thresholds |
| `Thresholds.UnsettledRebuildAcceptsDoubleAppend` | miner/state/block_chain_validator.go:174 | the same for a second append of record 0 when only appends need confirmations |
| `Witnesses.DoubleAppendRunExists` | miner/state/block_chain_validator.go:174 | such a run exists |
| `Thresholds.EarlyAppendBlocksTip` | miner/state/block_chain_validator.go:164-181 | with more confirmations for creations than for appends: a run after which the chain of the tip replays and every block on top of it is refused |
| `Witnesses.StackRunExists` | miner/state/block_chain_validator.go:164-181 | such a run exists for every number of empty blocks below 2^28 |
| `Thresholds.SameVerdictsIff` | miner/state/block_chain_validator.go:183-196 | two caches with the same balances give the same verdict on every block iff their files have the same names and counts |
| `Thresholds.RebuildChangesNoVerdictIff` | miner/state/block_chain_validator.go:164-196 | a rebuilt cache judges every block as the replayed one iff the rebuild has the files and counts of full replay |
| `Safety.SettledRebuildsAsReplay` | miner/state/block_chain_validator.go:164-181 | a rebuild from a chain with every operation confirmed has the files of full replay, if the chain replays |
| `Safety.LoadIsReplay` | miner/state/block_chain_validator.go:164-181 | in a safe state the cached or rebuilt state of a node is the replay of its chain |
| `Safety.StepKeepsSafe` | miner/state/tree_manager.go:318-377 | every addition, check and job filtering keeps the invariant |
| `Safety.RunIsSafe` | miner/state/tree_manager.go:318-339 | the invariant holds after every run whose rebuilds have the files of full replay |
| `Runs.GenesisRebuildsAreOrderly` | miner/state/block_chain_validator.go:164-181 | a run that loads uncached nodes only when they are the genesis block is such a run, whatever the thresholds |
| `Runs.EveryRunIsSafe` | miner/state/tree_manager.go:318-339 | after every run the tree has one genesis block, alone at height 0, and every chain within the limits replays |
| `Runs.ReplaysIffPlain` | miner/state/tree_manager.go:318-339 | a chain of the tree with empty NoOp blocks replays iff it stays within the limits |
| `Runs.TreeHasOneGenesis` | miner/state/block_chain_validator.go:142-147 | all chains start with the same genesis block |
| `Runs.ScanSeesOnlyShape` | miner/state/block_chain_validator.go:259-404 | the file verdict depends on existence and record counts only |
| `Runs.VerdictIsHistoryIndependent` | miner/state/block_chain_validator.go:135-199 | acceptance depends on the block and its parent's chain, not on earlier calls |
| `Runs.ExtendsIffReplays` | miner/state/block_chain_validator.go:135-199 | for a block within the limits the verdict is proof of work, replay of the extended chain, and no append to a full file |
| `Runs.FilteredJobsMakeAnAcceptedBlock` | miner/state/block_chain_validator.go:202-250 | a mined block with exactly the filtered jobs is accepted on the head |
| `Runs.JobsSurviveByReplay` | miner/state/block_chain_validator.go:202-250 | the jobs that survive on a head whose chain is within the limits and loads as replay depend on that chain and the jobs only: what as many passes as there are jobs keep, each judged by full replay of the chain; jobs numbered 65535 aside |
| `Convergence.FormedIsUnique` | miner/state/tree_manager.go:60-79 | the id of a block determines its chain |
| `Convergence.FormedIsGrown` | miner/state/tree_manager.go:60-79 | a chain that the blocks can form is in the tree once its last block has come |
| `Convergence.OrderDoesNotMatter` | miner/state/tree_manager.go:60-79 | the same blocks in two parent-first orders give the same nodes and chains, with thresholds of 0 or if every rebuild has the files of full replay |
| `Convergence.OrderMatters` | miner/state/tree_manager.go:60-79 | with a creation threshold above 0 four blocks that meet all other hypotheses give different nodes in two parent-first orders |
| `Convergence.OrderMattersForAppends` | miner/state/tree_manager.go:60-79 | the same when only appends need confirmations |
| `Convergence.SameChainsSameShape` | shared/datastruct/mrootedtree.go:102-118 | trees with the same chains have the same heights, the same roots and heads of equal height |
| `Convergence.FeedTree` | miner/state/tree_manager.go:60-79 | adding blocks one by one to a tree on the heap gives the fed ledger |
| `Convergence.FedTreesConverge` | miner/state/tree_manager.go:60-79 | two trees on the heap fed the same blocks in two such orders have the same nodes, heights and roots, and heads of equal height |
| `Convergence.ChargedBlocksArePlain` | miner/block_calculators/block_calculators.go:97 | blocks with empty NoOps, no append numbered 65535 and fees >= 1 stay within the limits on every chain |
| `BlockChainTree.BlockChainTree.Add` | miner/state/tree_manager.go:318-339 | tree, cache and answer are those of the `Add` step |
| `BlockChainTree.BlockChainTree.ValidateBlock` | miner/state/tree_manager.go:358-365 | the check moves the cache only, and answers true for a rejected block |
| `BlockChainTree.BlockChainTree.ValidateJobSet` | miner/state/tree_manager.go:373-377 | the job step on the longest head, with the two errors of the filters |
| `BlockChainTree.BlockChainTree.InLongestChain` | miner/state/tree_manager.go:341-352 | d >= 0 iff the id is on the longest head's path, at height head-d; otherwise -1 |
| `BlockChainTree.DepthBelow` | miner/state/tree_manager.go:344-351 | the pointer walk finds the depth of an id below a head |
| `BlockChainTree.WaitedForBlockIsVisible` | miner/block_calculators/block_calculators.go:121-133 | a block deeper than both thresholds, as the miner waits for, is fully visible in the confirmed view, if there is one |
| `Queue.Queue.Enqueue` | shared/datastruct/queue.go:9-11 | adds at the end |
| `Queue.Queue.Clear` | shared/datastruct/queue.go:13-16 | empties the queue |
| `Queue.Queue.Dequeue` | shared/datastruct/queue.go:18-34 | takes the first arrival, moving the stack over when needed |
| `Queue.Queue.IsInQueue` | shared/datastruct/queue.go:36-48 | true iff some element matches |
| `Queue.Queue.Len` | shared/datastruct/queue.go:50-52 | the number of elements |
| `Queue.Queue.Del` | shared/datastruct/queue.go:54-77 | removes exactly one match, the one that the two scans meet first, and keeps the order of the rest |
| `TreeManager.RemoveNodesStartingFrom` | miner/state/tree_manager.go:242-256 | removes one parent-to-child line of descendants, ends where nothing queued extends the last one, and keeps all other elements in order |
| `TreeManager.TreeManager.AddBlock` | miner/state/tree_manager.go:60-111 | known parent or genesis goes to the tree, anything else to the queue once, which is emptied when over 100 |
| `TreeManager.OrphanIsQueued` | miner/state/tree_manager.go:86-104 | after a call for an orphan its id is queued: with at most 100 blocks before, they stay and the orphan is last unless its id was there; with more it is alone; no id is queued twice |
| `TreeManager.StoredBlockIsKnown` | miner/state/tree_manager.go:61-70 | a stored block gives no error and changes neither tree nor queue |
| `TreeManager.GenesisAnswers` | miner/state/tree_manager.go:61-79 | once the tree is not empty, the stored genesis block gives no error and any other genesis block is refused |
| `TreeManager.TreeManager.BlockAdderHelper` | miner/state/tree_manager.go:149-240 | terminates; tree, answer and, after true, queue are those of the run `Help`; after false exactly one parent-to-child line below the first missing block has left the queue, nothing queued extends its end, and the rest keeps its order |
| `TreeManager.NothingToCut` | miner/state/tree_manager.go:242-256 | if nothing queued extends that block, the queue is unchanged |
| `TreeManager.SomethingIsCut` | miner/state/tree_manager.go:242-256 | otherwise a queued block that extends it is gone |
| `TreeManager.HelpAnswers` | miner/state/tree_manager.go:149-240 | true and no change for a stored block; true and queued if the parent is queued; false if nobody has the parent; otherwise the answer for the fetched parent |
| `TreeManager.TrueOffersOrQueues` | miner/state/tree_manager.go:149-240 | after true the block was offered to the tree on a stored parent, or it is queued |
| `TreeManager.HelpStoresOnlyMissing` | miner/state/tree_manager.go:149-240 | whatever the answer, only the block and missing ancestors of it are stored, each on top of its parent; false leaves the nodes unchanged |
| `TreeManager.HelpKeepsSafe` | miner/state/tree_manager.go:149-240 | a run whose additions find the cache or rebuild it as full replay would keeps every chain of the tree replayable |
| `TreeManager.NoThresholdsHelpIsOrderly` | miner/state/tree_manager.go:149-240 | every run does so when the thresholds are 0 |
| `TreeManager.FetchableIsStored` | miner/state/tree_manager.go:149-240 | if every missing ancestor is available, acceptable and not queued, the answer is true, exactly these and the block are stored, parents first, and the queue is unchanged |
| `TreeManager.TrueAndStoredIffFetchable` | miner/state/tree_manager.go:149-240 | true with the block newly stored on a chain within the limits iff every missing ancestor is available, acceptable and not queued and the block is acceptable, the genesis block of an empty tree included |
| `TreeManager.TrueWithoutTheBlock` | miner/state/tree_manager.go:229-238 | a fetchable parent and a block without proof of work: true, the parent stored, the block not |
| `TreeManager.TrueWithoutTheBlockHappens` | miner/state/tree_manager.go:229-238 | such a case on a tree with a genesis block |
| `TreeManager.AcceptedIsStored` | miner/state/tree_manager.go:60-70 | an acceptable block with a known parent is stored |
| `TreeManager.FetchedIsNew` | miner/state/tree_manager.go:229-238 | the new nodes are exactly the missing ancestors and the block, each chain extends the parent's, all other nodes stay |
| `TreeManager.MissingIsLine` | miner/state/tree_manager.go:149-240 | in the order of storing, each missing block is the parent of the next |

## Left out

- Client commands, the RPC and TCP servers, gob encoding, configuration parsing, handlers that poll: they only call the operations above.
- The heartbeat library, clocks, expiry of listeners and notification channels.
- Goroutines and locks: each call under a lock is one step. `blockAdderHelper` is sequential, so the second look-up of the parent after fetching (miner/state/tree_manager.go:208-228) cannot succeed and is not modelled. The look-up of the block itself before adding it is left to `AddBlock`, which repeats it.
- The priority queue of pending jobs, whose order is decided in Go's container/heap, which is not part of this model.
- Error texts and the chain of composite errors: an error is present or absent.
- Widths of machine integers other than the 16-bit counts, the 16-bit and 32-bit offsets and the 32-bit nonce: balances and heights are unbounded.
- Blocks of a kind that is none of the three: computing their id panics.
- Pointer sharing between the cached file entries: entries are values; no entry is changed after it is stored.
- FileFilterKeepsLegal: leaves jobs numbered 65535 aside; the overlay accepts some of them that replay does not (`OverlayAcceptsTooMany`).
- OverlayAgreesWithReplay: compares existence and record counts; data and creators are compared in `CachedContents`, where the cache does differ.
- FindNonce: does not promise that a nonce is found; `stopAt` bounds the rounds, any number of them.
- OrderDoesNotMatter: asks for distinct ids, one genesis block, blocks within the limits, and thresholds of 0 or orders in which every rebuild has the files of full replay; without the last it is false (`OrderMatters`).
- BlockAdderHelper: asks for a remote store whose parent relation is well-founded and that answers with the block asked for, as the retriever checks (miner/state/state.go:91).
- TrueAndStoredIffFetchable: asks that every addition of the run finds the cache or rebuilds it as full replay would, as the theorems about runs do; with thresholds of 0 it does.
