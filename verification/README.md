# Tree-ensemble scoring and benchmark accounting, verified

This project models two parts of the repository and proves them right.

The first part scores rows with tree ensembles. Its meaning is simple: base score plus, for every tree,
the leaf reached by walking the tree; reject when the sum reaches a threshold. The repository computes it
in many faster ways, and the model contains these ways, each proved against the walk:

- `Bits`, `Forest` (with `Tallies`), `Search`: candidate masks as bit positions, the walk, the sum, the rank searches.
- `QuickScorer`, `QuickScorerExact`: ANDing block masks with an early break finds the leaf the walk reaches.
- `Interval`: score intervals from masks that need not isolate a leaf, and the command that decides on them.
- `Reorder`, `BundleReorder`: greedy reordering of blocks, what a block gains, and reordering of a loaded bundle on
  sampled rows.
- `EpochCache`, `Traversal`: caches emptied by moving to a new epoch, rank and float traversals, suffix-bound exits.
- `Ladder`, `HotKernels`, `HotStages`, `LateProgram`: runs that stop at checkpoints, interpreted, compiled to
  packed nodes, filled in stages, and split in a hot and a late stage.
- `Calibration`: the band tables, their flattened form and the certifier built on them.
- `Predict`, `Rescue`, `Packets`: one row end to end, with exact continuation, with anchor and rescue runs, and
  with packet scheduling.
- `CompactPack`: the depth-first compiler of compact hot packs, what such packs can hold, the margin form of the
  traversal, and when the test for missing values can be left out.
- `Histogram`: percentiles of visit counts.

The second part is the benchmark client's connection machinery:

- `BatchWriter`: partial vectored writes of batch requests.
- `AckParser`, `AckWire`: the incremental response parser and the two header readers.
- `BatchWorker`: the HTTP/1 batch worker, from popped token to finished request.
- `H2Accounting`, `H2Runs`, `H2Numbers`: the HTTP/2 throughput worker's requests, connection counts and batches, its
  whole runs, and its numbers.

## How to read the main results

- `Prediction.PredictRow`: whatever the scratch buffers held, the answer is `reject` if and only if base plus all
  trees is at least the threshold. It holds for every certifier that is right when shown an exact prefix, and for
  bands that enclose what is still to come, in the bins whose edges enclose threshold and gap
  (`Calibration.NestedCertifierSound`). Where a run stops is stated too: at the first checkpoint the certifier answers
  (`PrefixRunStopsFirst`), which decides by the bounds of these bins (`Calibration.BandCertifierDecides`), and else at
  the first tree after which the suffix bounds tell.
- `Traversal.BoundExit`, `ApproxExit` and `HotTraversal.HotExit`: where a traversal exits and how it decides there, for
  each kind of exit, in terms of the thresholds of the checkpoints and the bounds.
- `Packets.StepFollowsPolicy`: which packet each step of a scheduled run runs, in terms of the policy's maps.
- `AnchorRescue.RescueConserves`, `Packets.PacketsConserveIff`: continuing a shadow run gives base plus every tree or
  packet once; for packets, exactly when the run had at most 65536 steps.
- `BatchWorkers.RunSound`: over any environment each token is in one place, acknowledgements are matched to the requests
  written, and a loop that ends by itself has finished everything. `RunWorker` is the loop these speak of; it states
  the success and error counters over the acknowledgements of its environment. `BalancesIff`: when the counters balance
  in every environment. `PacedRunBalances`: they do for the tokens the pacer issues.
- `H2Accounting.RunSound`: every recorded request is counted once, in one batch. `H2Runs.RunTells`: it is told the first
  answer the environment gives under its number while it waits, or that it timed out. `RunAccounts` and `RunBalances`:
  what the finished batches add up to over these answers, counter by counter, how many batches there are and how large.
  `H2Numbers.RunCountsIff` and `RepeatedNumberMisleads`: when connection counts go wrong, and a run in which they do.
  `H2Runs.RunWorker` is the loop.
- `AckWire.ReadReplies` and `RepliesReadIff`: encoded responses are read back as exactly their acknowledgements, and
  when they are however the stream is cut into reads.

The environment of a worker is a list of rounds, one for each turn of the loop: tokens that arrive, what sockets yield,
readings of the clock, the order in which a hash map gives its keys. All of it is arbitrary.

Machine state is modelled in the form the source gives it: buffers are arrays written in place, caches, handler,
write state and parser are classes, and the workers' loop variables are records that the methods replace. Worker and
log together are `Books`. Each step is one function on books, each method is proved equal to such a function, and what
the steps and their compositions keep is proved of the functions as lemmas.

## Conditions the code needs

Some properties hold only under a condition. Each is stated as an equivalence, so that the condition is exact.

- Byte ranks decide comparisons if and only if a feature has fewer than 256 cuts (`QuickScorerExact.ByteRankExactIff`).
- The hot run stops at its last checkpoint but the late run starts at the hot limit. Runs are exact for every ensemble
  if and only if these are equal, or there is no late stage; without hot checkpoints, if and only if the limit is 0
  (`Ladders.StagesMeetIff`). A rescue run starts from the anchor's score, which is used
  only if there are hot checkpoints; without them the code restarts from the base score (`Prediction.Splits`).
- Continuing an anchor and rescue run counts no tree twice, for any tree scores, if and only if the rescue trees run are
  distinct and not among the anchor's (`AnchorRescue.CountsOnceIff`).
- Selected packets are kept in 16-bit words. Continuing a run counts every packet exactly once, whatever the packets are
  worth, if and only if the run had at most 65536 steps, on any number of packets (`Packets.PacketsConserveIff`); at
  most 65536 packets or steps suffice (`PacketsConserve`), and otherwise some run fails (`LongRunFails`).
- Trying the fast header reader first changes nothing if and only if the last Content-Length, trimmed as text, says what
  the first one says as it stands (`AckWire.ReadersAgreeIff`): the fast reader takes the first one and trims blanks, the
  generic reader takes the last one and trims Unicode white space. So they differ on a single value with, say, a
  non-breaking space behind it (`OneLengthAgreesIff`, `PaddedLengthMisleads`).
- Every request announces the length of a full batch. That is right if and only if the token fills its batch
  (`BatchWriters.AnnouncedLengthIff`).
- A token larger than a batch is cut to the batch when it is written, but counted in full when it is dropped. The
  worker's counters balance, in every environment that reports the rows of what it acknowledges, if and only if every
  recorded token fits its batch (`BatchWorkers.BalancesIff`).
- Request numbers are 32-bit words that repeat. Over any run of the HTTP/2 worker, however long, connection counts are
  right at its end if and only if no request went in flight under a number in flight (`H2Numbers.RunCountsIff`; for
  one step, `H2Accounting.CountsKeptIff`). That is so when at most 2^32 tokens are offered (`FewTokensKeepApart`), and
  not so in some longer run (`RepeatedNumberMisleads`).
- Well-formed responses are read however they are cut into reads if and only if each one but for its last byte, and a
  read of 4096 bytes, stay within 65536 bytes, unless all that is to come does (`AckFraming.CuttingsReadIff`).
- Where the code leaves out the test for missing values, on any row, it walks the trees that send them right. That gives
  the plain walk's leaves from every node if and only if every missing value of the row goes right wherever it is tested
  (`MissingTests.RightWalkIff`).
- A table finds the first position of every fold identifier if and only if none is repeated or the identifiers are
  scanned (`Calibration.FoldSlotIsPositionIff`).
- A compact tree has 16-bit links. A tree whose branches share no node can be packed if and only if it has at most 65535
  nodes (`CompactLimits.TreeHasPackIff`), and then `CompactPacks.CompileCompact` packs it.

Shape conditions of the data, required where they are used: children come after their parent; `missing` is one of the
two children of a split and the two branches share no leaf (QuickScorer only); trees are stored one after the other
(late program); trees share no block slots (reordering); packets are numbered by position; a compact tree has at most
65535 reachable nodes, since 65535 marks a node without a number; the nodes of a compact pack, and of a late program,
number at most 2^32, so that offsets fit 32 bits; a batch with route metadata has at most 128 records, the size of the
writer's header array. The pack builder is not part of this model: `QuickScorerExact.Encodes`
says what a pack that encodes a tree is.

Scores and thresholds are real numbers, with a separate value for missing features. The threshold bin of the
calibration is taken from the first checkpoint's edges for all checkpoints, as in the code.

## Model

| member | source | states |
|---|---|---|
| `Bits.TrailingZeros` | crates/risk-quickscorer-standalone-l2/src/qs_exact.rs:248-262 | The result is the lowest position the word holds. |
| `Bits.AtAnd` | crates/risk-quickscorer-standalone-l2/src/qs_exact.rs:435-436 | ANDing words intersects the positions they hold. |
| `Bits.PositionsBelow64` | crates/risk-quickscorer-standalone-l2/src/qs_exact.rs:248-262 | A 64-bit word holds no position from 64 on. |
| `Bits.LowestCleared` | crates/risk-quickscorer-standalone-l2/src/qs_exact.rs:540-547 | `x & (x - 1)` drops exactly the lowest position. |
| `Bits.PowerOfTwoHoldsOne` | crates/risk-quickscorer-standalone-l2/src/qs_exact.rs:248-250 | A power of two holds one position ... |
| `Bits.OneHeldIsPowerOfTwo` | crates/risk-quickscorer-standalone-l2/src/qs_exact.rs:248-250 | ... and a word that holds one position is a power of two. |
| `LeafMasks.Meet` | crates/risk-quickscorer-standalone-l2/src/qs_exact.rs:434-436 | The meet of two masks keeps exactly the leaves both keep. |
| `LeafMasks.ResolvedIffOne` | crates/risk-quickscorer-standalone-l2/src/qs_exact.rs:248-262 | The resolved test holds if and only if one leaf is left, and decoding succeeds exactly then and names that leaf. |
| `Search.CountDecides` | crates/risk-quickscorer-standalone-l2/src/qs_exact.rs:264-287 | Comparing the count of entries at most `x` with the count of entries below `t` decides `x < t`, for any `t` in the list. |
| `Search.RankDecides` | crates/risk-quickscorer-standalone-l2/src/lib.rs:3936-3946 | In a sorted list, rank at most index `r` if and only if the value is below entry `r`. |
| `Search.UpperBound` | crates/risk-quickscorer-standalone-l2/src/lib.rs:3082-3105 | The search, linear up to sixteen entries and binary above, counts the entries at most `x`. |
| `Search.BinaryUpperBound` | crates/risk-quickscorer-standalone-l2/src/lib.rs:3092-3103 | The binary search ends where bisection does, on any list, and in a sorted one counts the entries at most `x`. |
| `Search.BisectCounts` | crates/risk-quickscorer-standalone-l2/src/lib.rs:3092-3103 | In a sorted list bisection counts the entries at most `x`. |
| `QuickScorer.QuantizeRow` | crates/risk-quickscorer-standalone-l2/src/qs_exact.rs:289-304 | The buffers hold exactly the row's answers: missing, or the byte rank among the cuts. |
| `QuickScorer.SelectMask` | crates/risk-quickscorer-standalone-l2/src/qs_exact.rs:424-434 | The mask selected is the one of the bucket the missing mark or the rank picks; a lookup outside the tables cannot happen. |
| `QuickScorer.NarrowTree` | crates/risk-quickscorer-standalone-l2/src/qs_exact.rs:420-441 | The mask loop ends after the first block that resolves the mask, with the meet of the masks up to it. |
| `QuickScorer.ScoreTreeQuantized` | crates/risk-quickscorer-standalone-l2/src/qs_exact.rs:414-456 | The tree's result or failure, and its work, are those of the evaluation function, for any pack. |
| `QuickScorer.AddTree` | crates/risk-quickscorer-standalone-l2/src/qs_exact.rs:470-481 | One listed tree joins the sum; an index the pack lacks, or a tree that fails, makes the sum fail. |
| `QuickScorer.ScoreTreeIndices` | crates/risk-quickscorer-standalone-l2/src/qs_exact.rs:459-484 | The sum over the listed trees; it fails exactly where the first tree or index fails. |
| `QuickScorer.ScoreRow` | crates/risk-quickscorer-standalone-l2/src/qs_exact.rs:487-530 | A row's score is the base score and all trees of the pack in order, whatever the buffers held. |
| `QuickScorer.FailureStays` | crates/risk-quickscorer-standalone-l2/src/qs_exact.rs:487-530 | A failure at one tree is the failure of the whole row. |
| `QuickScorerExact.FollowIsWalk` | crates/risk-quickscorer-standalone-l2/src/lib.rs:4096-4125 | Following the answers (byte ranks against cuts, missing) reaches the leaf the walk on the values reaches. |
| `QuickScorerExact.EncodingKeepsExit` | crates/risk-quickscorer-standalone-l2/src/qs_exact.rs:424-436 | In an encoding pack no mask drops the leaf the walk reaches. |
| `QuickScorerExact.SurvivorIsFollowed` | crates/risk-quickscorer-standalone-l2/src/qs_exact.rs:424-436 | A leaf that survives every feature's tests is the leaf the answers lead to. |
| `QuickScorerExact.AllBlocksIsolate` | crates/risk-quickscorer-standalone-l2/src/qs_exact.rs:424-441 | All masks of a tree together leave exactly that leaf's bit. |
| `QuickScorerExact.EarlyBreakIsolates` | crates/risk-quickscorer-standalone-l2/src/qs_exact.rs:438-441 | Stopping at the first resolved mask leaves the same bit. |
| `QuickScorerExact.EvaluatedBlocksIsolate` | crates/risk-quickscorer-standalone-l2/src/qs_exact.rs:424-441 | The blocks evaluated before the break leave exactly that bit. |
| `QuickScorerExact.QuickScorerIsWalk` | crates/risk-quickscorer-standalone-l2/src/qs_exact.rs:414-456 | For every row, missing values included, the evaluator gives the value of the leaf the recursive walk reaches and never fails. |
| `QuickScorerExact.PackYieldsPlan` | crates/risk-quickscorer-standalone-l2/src/qs_exact.rs:459-484 | Every tree of an encoding pack evaluates to the walked leaf of its plan position. |
| `QuickScorerExact.ScoreIndicesIsSum` | crates/risk-quickscorer-standalone-l2/src/qs_exact.rs:459-484 | Scoring any list of tree positions never fails and adds up their values. |
| `QuickScorerExact.QuickScorerRowIsExact` | crates/risk-quickscorer-standalone-l2/src/qs_exact.rs:487-530 | A whole row scores base plus the walked leaves of all trees, and the evaluator never bails. |
| `QuickScorerExact.ByteRankExactIff` | crates/risk-quickscorer-standalone-l2/src/qs_exact.rs:264-287 | Ranks kept in a byte decide every comparison if and only if the feature has fewer than 256 cuts. |
| `Intervals.TakeLeaf` | crates/risk-quickscorer-standalone-l2/src/qs_exact.rs:540-563 | One turn of the bit loop takes the lowest position, and fails only on a leaf the tree lacks. |
| `Intervals.TakenJoins` | crates/risk-quickscorer-standalone-l2/src/qs_exact.rs:540-547 | Clearing the lowest position takes exactly one more leaf. |
| `Intervals.WordBounds` | crates/risk-quickscorer-standalone-l2/src/qs_exact.rs:539-563 | The bit loop over a word ends with the exact range of the leaves it holds. |
| `Intervals.MaskBounds` | crates/risk-quickscorer-standalone-l2/src/qs_exact.rs:533-569 | Fails exactly on a mask that keeps no leaf, or a leaf of the high word the tree lacks; otherwise the exact minimum and maximum over the kept leaves. |
| `Intervals.BoundTree` | crates/risk-quickscorer-standalone-l2/src/qs_exact.rs:572-609 | With masks that never drop the exit leaf, a tree's range is the exact one of the leaves left and encloses its value; work and early resolution are those of the blocks evaluated. |
| `Intervals.AddInterval` | crates/risk-quickscorer-standalone-l2/src/qs_exact.rs:587-607 | A tree adds its range's ends, its blocks and whether it was resolved early to the row. |
| `Intervals.AroundSums` | crates/risk-quickscorer-standalone-l2/src/qs_exact.rs:580-615 | Ranges around the exact values sum to an interval around the exact sum. |
| `Intervals.SumIntervals` | crates/risk-quickscorer-standalone-l2/src/qs_exact.rs:580-615 | Lower and upper are base plus the ends of ranges around the exact values, and the counts are those of all trees. |
| `Intervals.ScoreInterval` | crates/risk-quickscorer-standalone-l2/src/qs_exact.rs:572-615 | For every row, sound masks give an interval around the exact score whose ends are the exact ranges' sums, with the exact counts of blocks and early resolutions. |
| `Intervals.EncodingIsSound` | crates/risk-quickscorer-standalone-l2/src/qs_exact.rs:572-615 | Masks that encode the trees are sound in this sense. |
| `Intervals.ExactRow` | crates/risk-quickscorer-standalone-l2/src/standalone_commands.rs:1537-1567 | The traversal a row falls back to decides as the full sum and reports the prefix it stopped at. |
| `Intervals.DecideFast` | crates/risk-quickscorer-standalone-l2/src/standalone_commands.rs:1498-1581 | A fallback is used if and only if the threshold lies inside the interval; the final decision is the exact one, except that a suppressed fallback is never a rejection; and what score and visits are reported. |
| `GreedySelection.FirstBestIsBest` | crates/risk-quickscorer-standalone-l2/src/qs_exact.rs:360-387 | The scan picks the first of the remaining positions with the greatest gain. |
| `GreedySelection.GreedyPermutes` | crates/risk-quickscorer-standalone-l2/src/qs_exact.rs:355-406 | Picks and leftovers are a permutation of the positions, for any gains. |
| `GreedySelection.GreedyPicksBest` | crates/risk-quickscorer-standalone-l2/src/qs_exact.rs:359-400 | Each pick gains most, in the state the picks before it lead to, of all positions then left, and is the least of those that gain as much. |
| `GreedySelection.RestInOrder` | crates/risk-quickscorer-standalone-l2/src/qs_exact.rs:402-407 | What is not picked stays in order. |
| `GreedySelection.BestPosition` | crates/risk-quickscorer-standalone-l2/src/qs_exact.rs:360-387 | The scan for the best position, with its strict comparison. |
| `GreedySelection.PickBest` | crates/risk-quickscorer-standalone-l2/src/qs_exact.rs:389-399 | One pick: the best remaining position moves behind the chosen ones. |
| `GreedySelection.GreedyOrder` | crates/risk-quickscorer-standalone-l2/src/qs_exact.rs:355-406 | The picking loop with its shrinking list computes the greedy order. |
| `BlockReorder.SegmentPermutes` | crates/risk-quickscorer-standalone-l2/src/qs_exact.rs:354-407 | The reordered segment of a tree has the same blocks. |
| `BlockReorder.SegmentIsGreedy` | crates/risk-quickscorer-standalone-l2/src/qs_exact.rs:349-407 | A tree's new segment is its blocks in the order of as many greedy picks as asked for, or as there are blocks, and then the rest as it was. |
| `BlockReorder.ReorderOneVisits` | crates/risk-quickscorer-standalone-l2/src/qs_exact.rs:345-408 | Reordering one tree permutes its blocks and touches no other tree's. |
| `BlockReorder.Reordered` | crates/risk-quickscorer-standalone-l2/src/qs_exact.rs:332-411 | After the pass each visited tree has its blocks permuted; no other tree's blocks change. |
| `BlockReorder.EncodesAfterPermutation` | crates/risk-quickscorer-standalone-l2/src/qs_exact.rs:332-411 | A tree whose blocks are permuted is still encoded. |
| `BlockReorder.ReorderKeepsEncoding` | crates/risk-quickscorer-standalone-l2/src/qs_exact.rs:332-411 | Whatever rows were sampled, an encoding pack stays an encoding pack. |
| `BlockReorder.ReorderKeepsScores` | crates/risk-quickscorer-standalone-l2/src/qs_exact.rs:332-411 | For every row, sampled or not, every tree's value and resolved count are unchanged. |
| `BlockGains.GainIsWorth` | crates/risk-quickscorer-standalone-l2/src/qs_exact.rs:364-382 | What a block gains is, over the samples with more than one leaf left, a point for each leaf it rules out, besides a million where that leaves one leaf and ten thousand where it first leaves one half. |
| `BlockGains.AdvanceLeaves` | crates/risk-quickscorer-standalone-l2/src/qs_exact.rs:389-398 | Taking a block leaves each sample the leaves the block does not rule out, unless one was left already. |
| `BlockReorder.ReorderFrontBlocks` | crates/risk-quickscorer-standalone-l2/src/qs_exact.rs:332-411 | The in-place pass over a tree range computes exactly that list, with the early returns of the source. |
| `BlockReorder.ReorderInPlace` | crates/risk-quickscorer-standalone-l2/src/qs_exact.rs:345-408 | One tree's headers are rewritten in place to its reordered segment. |
| `BlockReorder.ReorderSegment` | crates/risk-quickscorer-standalone-l2/src/qs_exact.rs:353-406 | The new segment of a tree. |
| `BundleReorder.RanksOf` | crates/risk-quickscorer-standalone-l2/src/standalone_runtime_api.rs:300-306 | A row without missing values is sampled as its ranks. |
| `BundleReorder.SampleRows` | crates/risk-quickscorer-standalone-l2/src/standalone_runtime_api.rs:299-306 | The samples are the ranks of at most 256 of the active rows, evenly spread: sample `k` is that of the row at the `k`-th of these positions, and it fits the pack. |
| `BundleReorder.ReorderSampledLate` | crates/risk-quickscorer-standalone-l2/src/standalone_runtime_api.rs:261-319 | The late trees of a loaded bundle are reordered exactly under the source's conditions, and the bundle still fits its model, so the prediction theorems hold of it. |
| `Ladders.CheckpointHandler.OnCheckpoint` | crates/risk-quickscorer-standalone-l2/src/lib.rs:1538-1587 | What the certifier is shown (score, work, deltas), what is remembered, and when the run stops. |
| `Ladders.CheckLadder` | crates/risk-quickscorer-standalone-l2/src/lib.rs:3136-3152 | Accepts exactly the nonempty, strictly increasing checkpoints within the trees. |
| `Ladders.TreeDone` | crates/risk-quickscorer-standalone-l2/src/lib.rs:3178-3188 | After a tree the kernel either ends where the ladder ends, or is still on its way there. |
| `Ladders.ClimbSums` | crates/risk-quickscorer-standalone-l2/src/qs_exact.rs:746-848 | A run ends at a checkpoint with exactly the trees since its start added, and at the last one unless the handler decided. |
| `Ladders.ClimbDecides` | crates/risk-quickscorer-standalone-l2/src/lib.rs:1538-1587 | A run from an exact prefix only takes decisions its certifier gives at exact prefixes. |
| `Ladders.ClimbStopsFirst` | crates/risk-quickscorer-standalone-l2/src/lib.rs:1538-1587 | A run over all checkpoints shows the certifier the exact prefix scores in turn, each with its distance from the one before and from that at checkpoint 64, and stops at the first it answers, with that answer; else at the last. |
| `Ladders.BuildLayout` | crates/risk-quickscorer-standalone-l2/src/lib.rs:32-61 | Every checkpoint is in exactly one list, on its side of the hot limit, in order, with its number. |
| `Ladders.TwoStageSums` | crates/risk-quickscorer-standalone-l2/src/lib.rs:1619-1694 | What a hot and late run adds, whether or not its stages meet: trees between the last hot checkpoint and the hot limit are skipped. |
| `Ladders.TwoStageExact` | crates/risk-quickscorer-standalone-l2/src/lib.rs:1619-1694 | With stages that meet, a two-stage run adds exactly its prefix. |
| `Ladders.TwoStageDecides` | crates/risk-quickscorer-standalone-l2/src/lib.rs:1619-1694 | ... and its decisions are its certifier's at exact prefixes. |
| `Ladders.TwoStageStopsFirst` | crates/risk-quickscorer-standalone-l2/src/lib.rs:1619-1694 | So do the two stages, over one ladder, when they meet. |
| `Ladders.StagesMeetIff` | crates/risk-quickscorer-standalone-l2/src/lib.rs:1619-1694 | With or without checkpoints in either stage, undecided two-stage runs end at the exact prefix for every ensemble if and only if no tree lies between the last hot checkpoint and the hot limit, or no late stage follows. |
| `PrefixKernels.PackEvaluates` | crates/risk-quickscorer-standalone-l2/src/qs_exact.rs:746-848 | Every tree of an encoding pack evaluates as the ladder's contributions say. |
| `PrefixKernels.PrefixUntilFrom` | crates/risk-quickscorer-standalone-l2/src/qs_exact.rs:746-848 | Fails exactly on a bad ladder or one already passed; otherwise result and handler state are those of climbing the ladder. |
| `PrefixKernels.ClimbQs` | crates/risk-quickscorer-standalone-l2/src/qs_exact.rs:775-848 | The loop fails exactly when its start has passed the first checkpoint; otherwise it ends where the ladder ends. |
| `HotPacks.CachedFeature` | crates/risk-quickscorer-standalone-l2/src/lib.rs:3050-3059 | The lazy cache returns this row's value, filling the slot on first use. |
| `HotPacks.WalkHot` | crates/risk-quickscorer-standalone-l2/src/lib.rs:3159-3177 | One hot tree through the cache: the walked leaf and one unit of work per split. |
| `HotPacks.HotPrefixUntil` | crates/risk-quickscorer-standalone-l2/src/lib.rs:3124-3190 | Whatever the cache held, the interpreted run climbs this row's ladder; it fails exactly on a bad ladder. |
| `HotPacks.ClimbHot` | crates/risk-quickscorer-standalone-l2/src/lib.rs:3160-3189 | The loop over the hot trees ends where the ladder ends, with the handler as the ladder leaves it. |
| `HotPacks.CompileHotPrefixPack` | crates/risk-quickscorer-standalone-l2/src/standalone_loaders.rs:262-313 | Succeeds exactly under the guards, and then no node lost anything to 16-bit narrowing. |
| `HotPacks.WalkCompiled` | crates/risk-quickscorer-standalone-l2/src/lib.rs:3297-3314 | A compiled tree gives the leaf and work of the interpreted one; without the missing test, those of the tree that sends missing values right. |
| `HotPacks.WalkedSame` | crates/risk-quickscorer-standalone-l2/src/lib.rs:3297-3314 | For rows whose missing values go right both are the same. |
| `HotPacks.FillHotBuffer` | crates/risk-quickscorer-standalone-l2/src/lib.rs:3021-3028 | The buffer holds the row's hot features. |
| `HotPacks.HotPrefixUntilCompiled` | crates/risk-quickscorer-standalone-l2/src/lib.rs:3193-3328 | On any row the compiled run has the result of the interpreted run over the trees as it walks them, and calls the handler with the same checkpoints, scores and work. |
| `HotPacks.ClimbCompiled` | crates/risk-quickscorer-standalone-l2/src/lib.rs:3225-3328 | The loop over the compiled trees ends likewise, with or without the missing test. |
| `LatePrograms.CompileTree` | crates/risk-quickscorer-standalone-l2/src/standalone_loaders.rs:371-402 | One tree's nodes packed with byte links relative to its root, losing nothing under the guards. |
| `LatePrograms.OffsetFits` | crates/risk-quickscorer-standalone-l2/src/standalone_loaders.rs:315-411 | With no more nodes than 32-bit words, every tree's offset is kept. |
| `LatePrograms.CompileLateProgram` | crates/risk-quickscorer-standalone-l2/src/standalone_loaders.rs:315-411 | Succeeds exactly under the guards, and then the program holds the plan's trees up to the last checkpoint. |
| `LatePrograms.WalkLate` | crates/risk-quickscorer-standalone-l2/src/lib.rs:2109-2124 | A packed tree gives the leaf and work of the plan's tree that sends missing values right. |
| `LatePrograms.RightEvals` | crates/risk-quickscorer-standalone-l2/src/lib.rs:2109-2124 | For rows whose missing values go right these are the plan's. |
| `LatePrograms.LatePrefixUntil` | crates/risk-quickscorer-standalone-l2/src/lib.rs:2085-2148 | On any row the late run reaches the same checkpoints with the same scores and work as so walking the plan's trees. |
| `HotStages.MarkFeature` | crates/risk-quickscorer/src/prefix.rs:2456-2460 | A feature is listed when it is marked for the first time. |
| `HotStages.SeenIsMarked` | crates/risk-quickscorer/src/prefix.rs:2440-2466 | When the search's stack is empty, all features below a seen node are marked. |
| `HotStages.VisitTop` | crates/risk-quickscorer/src/prefix.rs:2446-2464 | One step of the search keeps what it has promised and makes progress. |
| `HotStages.CollectTree` | crates/risk-quickscorer/src/prefix.rs:2442-2464 | The search from one root ends with nothing left to visit and loses nothing seen or marked before. |
| `HotStages.CollectTreeHotFeatures` | crates/risk-quickscorer/src/prefix.rs:2432-2468 | The search over a stage's trees ends with exactly the features they test marked, each listed once. |
| `HotStages.AddStage` | crates/risk-quickscorer/src/prefix.rs:2413-2424 | A stage adds to the list exactly what its trees test for the first time. |
| `HotStages.BuildStagePlan` | crates/risk-quickscorer/src/prefix.rs:2401-2430 | Fails exactly on a bad ladder; otherwise what is filled after each stage is exactly what the trees up to its checkpoint test. |
| `HotStages.FillSubset` | crates/risk-quickscorer/src/l1.rs:233-246 | Filling a subset makes the buffer right about it and keeps what was right. |
| `HotStages.FillStage` | crates/risk-quickscorer/src/l1.rs:510-519 | After stage `k` is filled the buffer is right about everything the trees up to its checkpoint test. |
| `HotStages.WalkStaged` | crates/risk-quickscorer/src/l1.rs:521-535 | A tree, walked without the missing test, reaches the right leaf over a buffer that is right about the features it tests. |
| `HotStages.RunStage` | crates/risk-quickscorer/src/l1.rs:521-537 | The trees of a stage add what they add over the whole feature buffer. |
| `HotStages.StagedClimbs` | crates/risk-quickscorer/src/l1.rs:479-545 | On a good ladder the staged run is the climb. |
| `HotStages.HotPrefixUntilStaged` | crates/risk-quickscorer/src/l1.rs:479-545 | For any row and any ladder, the staged run has the result and the handler calls of the run without the missing test over the whole feature buffer, whatever the buffer held before; on a ladder that goes wrong it fails where it comes to the bad checkpoint. |
| `Calibration.GapBin` | crates/risk-quickscorer-standalone-l2/src/lib.rs:567-579 | The binary search, on any list of edges, ends in the bin the certifier is modelled on. |
| `Calibration.BinEncloses` | crates/risk-quickscorer-standalone-l2/src/lib.rs:567-579 | The edges of the bin enclose any value between the first and the last edge, whether or not the edges are sorted. |
| `Calibration.BinIsIn` | crates/risk-quickscorer-standalone-l2/src/lib.rs:567-579 | On any edges the bin is one whose edges enclose the value, or the end bin on the side beyond which it lies; without two edges it is bin 0. |
| `Calibration.InOneBin` | crates/risk-quickscorer-standalone-l2/src/lib.rs:567-579 | With sorted edges there is only one such bin. |
| `Calibration.SortedBin` | crates/risk-quickscorer-standalone-l2/src/lib.rs:567-579 | With sorted edges the bin is that of the count of edges at most the value, and values beyond the ends fall in the end bins. |
| `Calibration.Guard` | crates/risk-quickscorer-standalone-l2/src/lib.rs:582-599 | A neighbouring bin is added exactly when the gap is within tolerance of its edge, and the range stays within the bins. |
| `Calibration.Loosest` | crates/risk-quickscorer-standalone-l2/src/lib.rs:602-615 | The bounds returned are at least as loose as every bin's in the range, and each is some bin's. |
| `Calibration.ToleranceIs` | crates/risk-quickscorer-standalone-l2/src/lib.rs:585-585 | The tolerance is a millionth, or eight single-precision rounding steps of a gap of at least one, whichever is more. |
| `Calibration.LoosestConsulted` | crates/risk-quickscorer-standalone-l2/src/lib.rs:582-615 | The bounds are the loosest of the gap bin and of those neighbours whose edge the gap is within tolerance of: none of these is looser, and one has them. |
| `Calibration.FoldSlotFound` | crates/risk-quickscorer-standalone-l2/src/lib.rs:630-696 | What table or scan finds, for any identifiers: the first position, or with a table of near identifiers the position the table was last given. |
| `Calibration.FoldSlotIsPositionIff` | crates/risk-quickscorer-standalone-l2/src/lib.rs:630-696 | The slot found is the first position of the identifier, for every identifier, if and only if none is repeated or there is no table. |
| `Calibration.RepeatedFoldMisleads` | crates/risk-quickscorer-standalone-l2/src/standalone_loaders.rs:550-565 | A repeated identifier in a table: the lookup finds the later bands, the nested table the first. |
| `Calibration.FlattenFolds` | crates/risk-quickscorer-standalone-l2/src/standalone_loaders.rs:532-549 | Fails exactly on a band of the wrong length; otherwise slot `k` holds fold `k`'s bands. |
| `Calibration.BuildLut` | crates/risk-quickscorer-standalone-l2/src/standalone_loaders.rs:550-565 | The slot table maps every identifier to the last position it was given, and nothing else, or is left out. |
| `Calibration.FlattenTau` | crates/risk-quickscorer-standalone-l2/src/standalone_loaders.rs:571-605 | One threshold-bin table is copied into its slot or refused, as the source checks. |
| `Calibration.FlattenTaus` | crates/risk-quickscorer-standalone-l2/src/standalone_loaders.rs:566-605 | All of them: each slot holds the last table for its fold and bin, or is marked empty. |
| `Calibration.LoadTable` | crates/risk-quickscorer-standalone-l2/src/standalone_loaders.rs:516-622 | Accepts exactly the well-formed tables and flattens them. |
| `Calibration.DenseIsNested` | crates/risk-quickscorer-standalone-l2/src/lib.rs:699-737 | Where slots tell identifiers apart, the flattened lookup selects the specific threshold-bin table, else the fold's, else the global one. |
| `Calibration.BoundsHold` | crates/risk-quickscorer-standalone-l2/src/lib.rs:786-805 | Bounds that hold in the row's bin hold of what the lookup returns: consulting neighbours only loosens. |
| `Calibration.FlattenedTableBounds` | crates/risk-quickscorer-standalone-l2/src/lib.rs:786-805 | Bands of the nested table that hold of a row enclose, after flattening, what is still to come. |
| `Calibration.DecideIsRight` | crates/risk-quickscorer-standalone-l2/src/lib.rs:1157-1165 | Deciding on enclosing bounds, or on another right answer, is right. |
| `Calibration.CertifyIsRight` | crates/risk-quickscorer-standalone-l2/src/lib.rs:1138-1232 | The same for what a checkpoint sees. |
| `Calibration.TauBinIsIn` | crates/risk-quickscorer-standalone-l2/src/lib.rs:1528-1536 | The threshold is in the bin taken for it, by the first table's edges. |
| `Calibration.BandsDecideIff` | crates/risk-quickscorer-standalone-l2/src/lib.rs:1138-1165 | The bounds decide exactly when whatever is at most the upper one stays below the threshold, or else whatever is at least the lower one reaches it, and with the total at that bound for score; otherwise the other certifier is asked. |
| `Calibration.BandCertifierDecides` | crates/risk-quickscorer-standalone-l2/src/lib.rs:1138-1232 | At a checkpoint the certifier so decides by the bounds of the one bin the threshold is in. |
| `Calibration.BandCertifierSound` | crates/risk-quickscorer-standalone-l2/src/lib.rs:1138-1232 | Lookups whose bounds hold of a row at every checkpoint, in each bin whose edges enclose the threshold, and a sound second certifier make a sound certifier. |
| `Calibration.NestedCertifierSound` | crates/risk-quickscorer-standalone-l2/src/lib.rs:1138-1232 | So do loaded tables whose nested bands, in each threshold bin and gap bin that encloses its value, hold of the row. |
| `Prediction.RunLate` | crates/risk-quickscorer-standalone-l2/src/lib.rs:1953-2026 | The late stage, by program or by QuickScorer, climbs the late ladder. |
| `Prediction.RunHot` | crates/risk-quickscorer-standalone-l2/src/lib.rs:1900-1952 | The hot run, compiled or interpreted, climbs the hot ladder of this row, whatever cache and buffer held. |
| `Prediction.RunHotStage` | crates/risk-quickscorer-standalone-l2/src/lib.rs:1900-1952 | The hot stage, compiled or interpreted; without hot checkpoints the score stays at base. |
| `Prediction.RunLateStage` | crates/risk-quickscorer-standalone-l2/src/lib.rs:1953-2026 | Runs only while undecided and when there are late checkpoints. |
| `Prediction.RunStages` | crates/risk-quickscorer-standalone-l2/src/lib.rs:1900-2026 | Both stages with one handler are the prefix run of the row. |
| `Prediction.ShadowRowFrom` | crates/risk-quickscorer-standalone-l2/src/lib.rs:1456-1712 | The interpreted route from any start score reports the prefix run of the row, whatever the scratch held. |
| `Prediction.ShadowRow` | crates/risk-quickscorer-standalone-l2/src/lib.rs:1751-2046 | The compiled route, and its fall-back to the interpreted one, report the prefix run of the row. |
| `Prediction.Continue` | crates/risk-quickscorer-standalone-l2/src/lib.rs:2515-2551 | The continuation traverses the plan from the first unused tree. |
| `Prediction.PrefixRunIsExact` | crates/risk-quickscorer-standalone-l2/src/lib.rs:1456-1712 | With stages that meet, a prefix run adds exactly its trees and decides only at exact prefixes. |
| `Prediction.PrefixRunStopsFirst` | crates/risk-quickscorer-standalone-l2/src/lib.rs:1456-1712 | A prefix run shows its certifier the exact prefix scores at the checkpoints in turn and stops at the first it answers, with that answer; else it goes to the last. |
| `Prediction.ShadowIsExact` | crates/risk-quickscorer-standalone-l2/src/lib.rs:1456-1712 | The same of what is reported. |
| `Prediction.ShadowReports` | crates/risk-quickscorer-standalone-l2/src/lib.rs:1456-1712 | What is reported: the prefix, and either the answer and its checkpoint or, for a fallback, the last checkpoint and no answer. |
| `Prediction.ContinuationIsExact` | crates/risk-quickscorer-standalone-l2/src/lib.rs:2515-2551 | Continuing an exact prefix decides as all trees do, at the first tree after which the suffix bounds tell. |
| `Prediction.FinishRow` | crates/risk-quickscorer-standalone-l2/src/standalone_runtime_api.rs:215-242 | The same of the continuation as it is run. |
| `Prediction.NoMissingNoneMisled` | crates/risk-quickscorer-standalone-l2/src/standalone_runtime_api.rs:200-242 | Rows without missing values have none that goes left. |
| `Prediction.PredictRow` | crates/risk-quickscorer-standalone-l2/src/standalone_runtime_api.rs:196-242 | For every row none of whose missing values goes left where it is tested: `reject` if and only if base plus the sum over all trees is at least the threshold, whatever the scratch held; and score, answer and counts are those of the prefix run, or of the first tree after it at which the suffix bounds tell. |
| `Traversal.EarlyExitKeepsDecision` | crates/risk-quickscorer-standalone-l2/src/lib.rs:4075-4153 | With valid suffix bounds the pass flag is that of the full sum from any start, and the visited count and score are those of the exit. |
| `Traversal.OnlyApproxExitsMayErr` | crates/risk-quickscorer-standalone-l2/src/lib.rs:3353-3391 | In any mode, an exit that no approximate checkpoint took is exact, and the others say which checkpoint it was. |
| `Traversal.BoundExit` | crates/risk-quickscorer-standalone-l2/src/lib.rs:4075-4153 | In a mode with suffix bounds the exit is at the first tree, among those after which they are looked at, where they decide, and decides as they do; or after all trees, by the full score. |
| `Traversal.PlainExit` | crates/risk-quickscorer-standalone-l2/src/lib.rs:4075-4153 | Without bounds and checkpoints all trees are added and their sum decides. |
| `Traversal.ApproxExit` | crates/risk-quickscorer-standalone-l2/src/lib.rs:3353-3391 | An approximate run exits at the first checkpoint come to whose margin is at most the refer threshold, and refers the row, or else at least the pass threshold, and passes it; no checkpoint before met either; if none does, all trees decide. |
| `Traversal.CachedRank` | crates/risk-quickscorer-standalone-l2/src/lib.rs:3108-3121 | The stamped cache returns this row's rank, never an earlier row's. |
| `Traversal.WalkTree` | crates/risk-quickscorer-standalone-l2/src/lib.rs:4099-4125 | Missing first, then rank, then float: always the leaf of the walk. |
| `Traversal.TraverseGenericFrom` | crates/risk-quickscorer-standalone-l2/src/lib.rs:4075-4153 | The generic traversal is the traversal over the walked tree scores. |
| `Forest.RightWalk` | crates/risk-quickscorer-standalone-l2/src/lib.rs:4002-4015 | For rows whose missing values go right wherever they are tested, the walk without the missing test is the walk. |
| `Forest.RightScores` | crates/risk-quickscorer-standalone-l2/src/lib.rs:4002-4015 | ... and so are all tree scores. |
| `MissingTests.RightWalkIff` | crates/risk-quickscorer-standalone-l2/src/lib.rs:4002-4015 | In trees, leaving the missing test out gives a row the same leaf from every node if and only if every missing value of the row goes right wherever it is tested. |
| `Traversal.WalkNomiss` | crates/risk-quickscorer-standalone-l2/src/lib.rs:4002-4015 | Without the test, on any row, a missing value goes right. |
| `Traversal.TraverseFloatNomissFrom` | crates/risk-quickscorer-standalone-l2/src/lib.rs:3979-4044 | The traversal without the missing test, on any row, is the traversal over the trees so walked. |
| `Traversal.TraverseRow` | crates/risk-quickscorer-standalone-l2/src/lib.rs:3072-3079 | One row through a cache left in any state. |
| `Traversal.TraverseRows` | crates/risk-quickscorer-standalone-l2/src/lib.rs:3062-3121 | Any run of rows through one cache, from any epoch: each row is scored as if alone. |
| `EpochCaches.EpochCache.constructor` | crates/risk-quickscorer-standalone-l2/src/lib.rs:3062-3070 | A new cache holds nothing. |
| `EpochCaches.EpochCache.NextRow` | crates/risk-quickscorer-standalone-l2/src/lib.rs:3072-3079 | After moving on, no slot of an earlier row counts, also when the 32-bit epoch wraps. |
| `EpochCaches.EpochCache.Store` | crates/risk-quickscorer-standalone-l2/src/lib.rs:3118-3119 | Storing this row's value keeps the cache right. |
| `Marks.UnmarkedSum` | crates/risk-quickscorer-standalone-l2/src/lib.rs:2470-2479 | What is marked and what is left add up to everything. |
| `Marks.MarkAllSum` | crates/risk-quickscorer-standalone-l2/src/lib.rs:2445-2469 | Marking a list moves its sum, less what it counts twice. |
| `Marks.OverlapZeroIff` | crates/risk-quickscorer-standalone-l2/src/lib.rs:2445-2469 | Nothing is counted twice, for any values, if and only if every listed position is new. |
| `AnchorRescue.RunRescue` | crates/risk-quickscorer-standalone-l2/src/lib.rs:2201-2222 | The rescue run starts from the anchor's score with a feature cache of its own. |
| `AnchorRescue.RunAnchorRescue` | crates/risk-quickscorer-standalone-l2/src/lib.rs:2150-2252 | The whole shadow run is a function of the row, with the wrong-side rule of the source. |
| `AnchorRescue.RescueRuns` | crates/risk-quickscorer-standalone-l2/src/lib.rs:2174-2222 | A row the anchor decides is not rescued; another is routed by the entry and the prefix score the anchor reports, to the bundle of the route's side, which runs from that score. |
| `AnchorRescue.AnchorEntry` | crates/risk-quickscorer-standalone-l2/src/lib.rs:2174-2199 | These are the last checkpoint and the exact score of the trees used. |
| `AnchorRescue.JoinedReports` | crates/risk-quickscorer-standalone-l2/src/lib.rs:2225-2252 | A direct answer of the rescue run stands exactly when it is its side's, otherwise the row falls back at the last rescue checkpoint; the work of both runs adds up. |
| `AnchorRescue.IndexPlan` | crates/risk-quickscorer-standalone-l2/src/lib.rs:2455-2458 | The index maps exactly the plan's trees, each to its last position. |
| `AnchorRescue.MarkExecuted` | crates/risk-quickscorer-standalone-l2/src/lib.rs:2445-2469 | The marks are the anchor's first positions and those of the rescue trees run. |
| `AnchorRescue.Remaining` | crates/risk-quickscorer-standalone-l2/src/lib.rs:2470-2476 | The list is exactly the unmarked positions, in order. |
| `AnchorRescue.ContinueRescue` | crates/risk-quickscorer-standalone-l2/src/lib.rs:2443-2481 | The continuation adds the unmarked trees to the shadow score and decides on the sum. |
| `AnchorRescue.ExecutedSum` | crates/risk-quickscorer-standalone-l2/src/lib.rs:2443-2481 | What the continuation leaves out is what both runs added, less what both ran. |
| `AnchorRescue.BothRunsExact` | crates/risk-quickscorer-standalone-l2/src/lib.rs:2150-2252 | Both runs added exactly their trees and decided only at exact prefixes. |
| `AnchorRescue.RescueConserves` | crates/risk-quickscorer-standalone-l2/src/lib.rs:2443-2481 | For every router action the continued score is base plus every tree once, plus what was counted twice. |
| `AnchorRescue.NewTreesCountOnce` | crates/risk-quickscorer-standalone-l2/src/lib.rs:2443-2481 | With rescue trees that are new nothing is counted twice. |
| `AnchorRescue.CountsOnceIff` | crates/risk-quickscorer-standalone-l2/src/lib.rs:2443-2481 | No tree is added twice, for any tree scores, if and only if the rescue trees are new. |
| `AnchorRescue.DirectDecisionsRight` | crates/risk-quickscorer-standalone-l2/src/lib.rs:2230-2250 | Direct answers of either run are right; a rescue certifier has to be right only on its own side. |
| `AnchorRescue.RescueSettles` | crates/risk-quickscorer-standalone-l2/src/lib.rs:2150-2252 | Every shadow run answers rightly, and continuing it makes base plus every tree once. |
| `AnchorRescue.PredictAnchorRescue` | crates/risk-quickscorer-standalone-l2/src/lib.rs:2150-2252 | End to end the decision is that of the whole ensemble. |
| `Packets.Choose` | crates/risk-quickscorer-standalone-l2/src/lib.rs:2340-2358 | The choice is unused, and there is none exactly when all packets are used. |
| `Packets.ChoosePacket` | crates/risk-quickscorer-standalone-l2/src/lib.rs:2340-2358 | The scan makes that choice: the policy's first unused packet, else the first unused one. |
| `Packets.HotScoreFull` | crates/risk-quickscorer-standalone-l2/src/lib.rs:2555-2582 | A compiled packet scores the sum of its walked trees. |
| `Packets.EvalPacket` | crates/risk-quickscorer-standalone-l2/src/lib.rs:2361-2374 | A packet's score and work, compiled or by QuickScorer. |
| `Packets.NoPacketTwice` | crates/risk-quickscorer-standalone-l2/src/lib.rs:2273-2430 | In every run of the scheduler no packet runs twice. |
| `Packets.RunIsMarked` | crates/risk-quickscorer-standalone-l2/src/lib.rs:2273-2430 | The score after a run is base plus the packets it marked. |
| `Packets.RunStep` | crates/risk-quickscorer-standalone-l2/src/lib.rs:2334-2378 | One step chooses, runs and adds a packet; it fails exactly when all are used. |
| `Packets.StepFollowsPolicy` | crates/risk-quickscorer-standalone-l2/src/lib.rs:2254-2270 | Every step of a run runs the earliest packet not yet run of the list for the exact state, without one of that for step and threshold bin, without that of the step's, and the least packet not run when the list names none; the bins are those of the threshold, of the threshold less the score so far, and of the last packet's value. |
| `Packets.SortedStepFollowsPolicy` | crates/risk-quickscorer-standalone-l2/src/lib.rs:2334-2358 | With sorted edges the bins, and so the packet, are determined. |
| `Packets.SightIsExact` | crates/risk-quickscorer-standalone-l2/src/lib.rs:2385-2403 | The certifier sees the exact score so far and what the last packet added. |
| `Packets.RunIsShort` | crates/risk-quickscorer-standalone-l2/src/lib.rs:2273-2430 | A run has no more steps than packets, and no more than its limit. |
| `Packets.RunIsDistinct` | crates/risk-quickscorer-standalone-l2/src/lib.rs:2273-2430 | All packets of a run are different. |
| `Packets.LateAfterAll` | crates/risk-quickscorer-standalone-l2/src/lib.rs:2340-2358 | A packet whose number exceeds a word runs only after all packets that words can name. |
| `Packets.LongRunIsLate` | crates/risk-quickscorer-standalone-l2/src/lib.rs:2340-2358 | A run of more than 65536 steps ran such a packet. |
| `Packets.RunPackets` | crates/risk-quickscorer-standalone-l2/src/lib.rs:2273-2430 | The run follows the policy, stops at the first step that certifies, and fails only on a calibration mismatch or when every packet has been run. |
| `Packets.LateCountsTwice` | crates/risk-quickscorer-standalone-l2/src/lib.rs:2482-2514 | Such a packet is counted twice by the continuation. |
| `Packets.ShortRunConserves` | crates/risk-quickscorer-standalone-l2/src/lib.rs:2482-2514 | A run of at most 65536 steps, on any number of packets, is continued to base plus every packet once. |
| `Packets.PacketsConserveIff` | crates/risk-quickscorer-standalone-l2/src/lib.rs:2273-2514 | For any run of the scheduler: continuing it makes base plus every packet exactly once, whatever the packets are worth, if and only if it had at most 65536 steps. |
| `Packets.RunsInOrder` | crates/risk-quickscorer-standalone-l2/src/lib.rs:2334-2360 | A policy without rankings runs the packets in order. |
| `Packets.LongRunFails` | crates/risk-quickscorer-standalone-l2/src/lib.rs:2334-2360 | With more than 65536 packets and steps such a policy has a run that counts a packet twice. |
| `Packets.MarkSelected` | crates/risk-quickscorer-standalone-l2/src/lib.rs:2482-2492 | The marks of the listed packets; fails exactly on one that does not exist. |
| `Packets.ContinuePackets` | crates/risk-quickscorer-standalone-l2/src/lib.rs:2482-2514 | Adds every packet that was not selected and decides on the sum. |
| `Packets.PacketsConserve` | crates/risk-quickscorer-standalone-l2/src/lib.rs:2482-2514 | The caller's form: at most 65536 packets, or at most 65536 steps, suffice for every policy. |
| `Packets.ContinuedRun` | crates/risk-quickscorer-standalone-l2/src/lib.rs:2482-2514 | What the continuation of a run adds up to. |
| `Packets.PartitionTotals` | crates/risk-quickscorer-standalone-l2/src/lib.rs:2482-2514 | When the packets partition the trees, all packets together are the whole ensemble. |
| `Packets.PlainPacketSums` | crates/risk-quickscorer-standalone-l2/src/lib.rs:2368-2373 | Packets without a compiled form contribute the sum of their trees. |
| `Packets.PacketBandsSound` | crates/risk-quickscorer-standalone-l2/src/lib.rs:2385-2403 | Bands that enclose what is still to come, in each bin that encloses the threshold, make the packet certifier right. |
| `Packets.IfUnused` | crates/risk-quickscorer-standalone-l2/src/lib.rs:2493-2512 | A packet is added by the continuation if it was not selected. |
| `Packets.PredictPackets` | crates/risk-quickscorer-standalone-l2/src/lib.rs:2273-2514 | End to end, for any number of packets, what is decided is that of the whole ensemble, unless a run of more than 65536 steps fell back; and what score is reported. |
| `CompactPacks.DrainedIsEmpty` | crates/risk-quickscorer/src/l1.rs:694-747 | When a pass's stack is empty it has come to every node it had to. |
| `CompactPacks.NumberTree` | crates/risk-quickscorer/src/l1.rs:690-721 | The first pass ends, numbers exactly the nodes below the root in the order of the visit, and writes them unlinked. |
| `CompactPacks.LinkTree` | crates/risk-quickscorer/src/l1.rs:723-736 | The second pass ends and every split is linked to the numbers of its children. |
| `CompactPacks.ClearTree` | crates/risk-quickscorer/src/l1.rs:738-747 | The third pass ends and leaves every slot of the buffer free. |
| `CompactPacks.CompileTree` | crates/risk-quickscorer/src/l1.rs:687-748 | The three passes keep the tree's meaning and give the buffer back all free. |
| `CompactPacks.CompileCompact` | crates/risk-quickscorer/src/l1.rs:672-755 | There is no pack exactly when no tree is hot or features do not fit; otherwise it holds the hot trees. |
| `CompactPacks.CompileNext` | crates/risk-quickscorer/src/l1.rs:690-750 | One more tree behind the nodes there are, under the offset where it starts. |
| `CompactLimits.WordsHoldNoMore` | crates/risk-quickscorer/src/l1.rs:687-736 | No pack with 16-bit links, however compiled, holds more than 65536 reachable nodes. |
| `CompactLimits.TreesAreOdd` | crates/risk-quickscorer/src/l1.rs:687-721 | A tree whose branches share no node has one leaf more than it has splits. |
| `CompactLimits.TreeHasPackIff` | crates/risk-quickscorer/src/l1.rs:687-736 | Such a tree has a pack with 16-bit links if and only if it has at most 65535 nodes: the bound of the compiler is the exact one. |
| `CompactPacks.WalkCompact` | crates/risk-quickscorer/src/l1.rs:898-912 | On any row a compact tree gives the leaf the walk reaches when missing values go right. |
| `HotTraversal.OnlyHotCheckpointsMayErr` | crates/risk-quickscorer/src/l1.rs:872-1064 | An exit that no hot checkpoint took is exact; visited count and score are those of the exit. |
| `HotTraversal.HotExit` | crates/risk-quickscorer/src/l1.rs:872-1064 | The same of runs with checkpoints on the hot trees only: the first one met refers or passes the row as its thresholds say, and else the bounds after the hot trees decide where they first can. |
| `HotTraversal.TailExit` | crates/risk-quickscorer/src/l1.rs:1260-1334 | After the hot trees the exit is at the first place where the bounds decide, as they do, or after all trees. |
| `HotTraversal.TraverseScoreForm` | crates/risk-quickscorer/src/l1.rs:1260-1334 | On any row the score form is the traversal, over the trees as it walks them, with checkpoints on hot trees and bounds after them. |
| `HotTraversal.MarginCheckpoint` | crates/risk-quickscorer/src/l1.rs:915-945 | On the margin, with the dense NaN-coded thresholds and the remembered next checkpoint, the approximate exit is the same. |
| `HotTraversal.MarginExitIsExit` | crates/risk-quickscorer/src/l1.rs:758-776 | On the margin the bound exit is the same as on the score. |
| `HotTraversal.TraverseMarginForm` | crates/risk-quickscorer/src/l1.rs:872-1064 | On any row, missing values included, the margin form, over a compact pack or without one, makes the score form's exit at the same tree. |
| `Histograms.HistogramFromVisits` | crates/risk-quickscorer-standalone-l2/src/standalone_commands.rs:462-473 | Each bucket counts the visits that fall in it; values outside the range go to the ends. |
| `Histograms.HistogramCountsAll` | crates/risk-quickscorer-standalone-l2/src/standalone_commands.rs:462-473 | The buckets add up to the number of visits. |
| `Histograms.HistogramsMerge` | crates/risk-quickscorer-standalone-l2/src/standalone_commands.rs:462-473 | Histograms of parts add up to the histogram of the whole. |
| `Histograms.SortCounts` | crates/risk-quickscorer-standalone-l2/src/standalone_commands.rs:452-460 | Sorting rearranges: every value occurs as often as before. |
| `Histograms.OrderStatistic` | crates/risk-quickscorer-standalone-l2/src/standalone_commands.rs:452-460 | In a sorted list, the element at `k` is in a lower bucket exactly when more than `k` elements are. |
| `Histograms.RankIsNearest` | crates/risk-quickscorer-standalone-l2/src/standalone_commands.rs:452-460 | The element asked for is the nearest to that share of the way from first to last, the later one of two as near. |
| `Histograms.PassesAt` | crates/risk-quickscorer-standalone-l2/src/standalone_commands.rs:475-488 | The running sum passes the rank exactly at the bucket of the ranked element. |
| `Histograms.PctFromHist` | crates/risk-quickscorer-standalone-l2/src/standalone_commands.rs:475-488 | The histogram percentile is the bucket of the sorted-list percentile for any counts, and equals it for counts in range. |
| `ByteLists.FlatResume` | crates/risk-bench3/src/bench_http.rs:169-170 | Which record an offset falls in, and where in it, as quotient and remainder. |
| `BatchWriters.Request.Message` | crates/risk-bench3/src/bench_http.rs:154-208 | Prefix, 16-byte header and records have the announced total length. |
| `BatchWriters.RecordSlices` | crates/risk-bench3/src/bench_http.rs:181-207 | The slices of a record from an offset inside it are what is left of it. |
| `BatchWriters.RecordsSlices` | crates/risk-bench3/src/bench_http.rs:169-208 | The slices of the records from an offset on are what is left of them. |
| `BatchWriters.HeadSlices` | crates/risk-bench3/src/bench_http.rs:152-167 | The slices of prefix and header are what is left of them. |
| `BatchWriters.Slices` | crates/risk-bench3/src/bench_http.rs:152-208 | The vectored write is handed exactly the bytes not yet written. |
| `BatchWriters.FlushWriteBatch` | crates/risk-bench3/src/bench_http.rs:143-226 | A partial write sends the next bytes of the message, completion is reported exactly at its end, and a write of nothing is an error. |
| `BatchWriters.WriteRequest` | crates/risk-bench3/src/bench_http.rs:764-773 | Over any sequence of partial writes the bytes sent are a prefix of the message, and all of it exactly when the request is reported done. |
| `BatchWriters.EncodedFields` | crates/risk-bench3/src/bench_decode.rs:514-524 | The 16-byte header is the magic, version 1, the route flag, and the count of records and the length of one, little end first, both of which read back. |
| `BatchWriters.HeaderDescribesBody` | crates/risk-bench3/src/bench_http.rs:241-247 | The body is as long as its header says. |
| `BatchWriters.AnnouncedLengthIff` | crates/risk-bench3/src/bench_entry.rs:37-44 | The announced Content-Length is right if and only if the token fills its batch (or records are empty). |
| `Streams.ReadAllSplits` | crates/risk-bench3/src/bench_setup.rs:251-307 | Reading a stream can be interrupted anywhere without changing what it holds. |
| `Streams.JoinedReads` | crates/risk-bench3/src/bench_setup.rs:251-307 | A stream of whole frames holds exactly their items; cut short, those of its whole frames. |
| `Streams.RestFits` | crates/risk-bench3/src/bench_setup.rs:168-200 | If there is room, what is left of the frames read and the next read fit the limit wherever the stream is cut ... |
| `Streams.TightPlace` | crates/risk-bench3/src/bench_setup.rs:168-200 | ... and if not, at some place they do not. |
| `AckFraming.FindSubsequence` | crates/risk-bench3/src/bench_decode.rs:5-7 | Finds the first blank line. |
| `AckFraming.FirstBlankStays` | crates/risk-bench3/src/bench_setup.rs:253-255 | The first blank line stays the first one when bytes are appended. |
| `AckFraming.FrameStays` | crates/risk-bench3/src/bench_setup.rs:251-291 | A response recognised, or refused, stays so when bytes follow. |
| `AckFraming.ResponsesFrame` | crates/risk-bench3/src/bench_setup.rs:251-291 | Responses are frames in that sense, for any header and body reader. |
| `AckFraming.WholeResponse` | crates/risk-bench3/src/bench_setup.rs:251-291 | Headers up to the first blank line and a body of the announced length are one frame. |
| `AckFraming.ResponseParser.constructor` | crates/risk-bench3/src/bench_setup.rs:118-123 | A new parser is empty. |
| `AckFraming.ResponseParser.Reset` | crates/risk-bench3/src/bench_setup.rs:125-132 | A reset parser is empty and remembers nothing. |
| `AckFraming.ResponseParser.ConsumeParsed` | crates/risk-bench3/src/bench_setup.rs:294-307 | What follows the response moves to the front, and remembered headers are forgotten. |
| `AckFraming.ResponseParser.TryFinishBatchAck` | crates/risk-bench3/src/bench_setup.rs:251-291 | Takes one response exactly when the buffer starts with one, also when its headers were read earlier. |
| `AckFraming.ResponseParser.ReadBatchAck` | crates/risk-bench3/src/bench_setup.rs:168-200 | Reads until one response is complete or the socket has no more; errors only on a broken socket, a bad response or one too large. |
| `AckFraming.ReadStream` | crates/risk-bench3/src/bench_http.rs:722-750 | However the bytes are cut into reads: reading succeeds exactly when no read fails and no response is bad, and then the acknowledgements are those of the byte stream; those given before a failure are right. |
| `AckFraming.ReadAfterReset` | crates/risk-bench3/src/bench_http.rs:131-141 | A reconnect resets the parser: whatever it held, and however reading had ended, no byte from before reaches an acknowledgement after. |
| `AckFraming.ReadWellFormed` | crates/risk-bench3/src/bench_setup.rs:168-307 | Well-formed responses of any size, cut anywhere: their acknowledgements in order and an empty buffer, unless a read fails; and none does if there is room. |
| `AckFraming.CuttingsReadIff` | crates/risk-bench3/src/bench_setup.rs:168-200 | They are read however they are cut if and only if there is room: each one but for its last byte, and a read, within 65536 bytes, unless all that is to come is. |
| `AckWire.ParseHeadersFast` | crates/risk-bench3/src/bench_decode.rs:73-102 | The fast header reader computes its specification, line by line. |
| `AckWire.ParseHeadersGeneric` | crates/risk-bench3/src/bench_setup.rs:202-225 | The generic header reader, which trims Unicode white space, computes its specification. |
| `AckWire.HeadersEndThere` | crates/risk-bench3/src/bench_setup.rs:253-255 | The first blank line comes right after the last header line. |
| `AckWire.FastReads` | crates/risk-bench3/src/bench_decode.rs:73-102 | On well-formed headers the fast reader gives the status and the first Content-Length, or asks for the generic one. |
| `AckWire.GenericReads` | crates/risk-bench3/src/bench_setup.rs:202-225 | On well-formed headers the generic reader gives the status and the last Content-Length, trimmed as text. |
| `AckWire.NumberIsTrimmed` | crates/risk-bench3/src/bench_setup.rs:202-225 | What parses as a number has no white space at its ends. |
| `AckWire.ReadersAgreeIff` | crates/risk-bench3/src/bench_setup.rs:256-266 | Trying the fast reader first changes nothing if and only if the last Content-Length, trimmed as text, says what the first one, as it stands, says. |
| `AckWire.NoLength` | crates/risk-bench3/src/bench_setup.rs:210-222 | Without a Content-Length the generic reader keeps what it had. |
| `AckWire.OnlyWhiteMisleads` | crates/risk-bench3/src/bench_setup.rs:256-266 | Where the fast reader alone refuses the first value, that value has white space at an end that is not a blank. |
| `AckWire.OneLengthAgreesIff` | crates/risk-bench3/src/bench_setup.rs:256-266 | With one Content-Length the readers agree if and only if it has no such white space, or is no number without it. |
| `AckWire.PaddedLengthMisleads` | crates/risk-bench3/src/bench_setup.rs:202-225 | The value 40 with a non-breaking space behind it: the fast reader fails, the generic one reads 40. |
| `AckWire.AckRoundTrip` | crates/risk-bench3/src/bench_decode.rs:104-121 | Decoding inverts encoding of the 40-byte body. |
| `AckWire.AckLayout` | crates/risk-bench3/src/bench_decode.rs:104-121 | Forty bytes are an acknowledgement exactly when they start with the magic and version 1; records, successes, level-two rows and the five decisions are the little-endian words from byte 8 on, in this order. |
| `AckWire.EncodedResponseIsWhole` | crates/risk-bench3/src/bench_entry.rs:500-530 | An encoded response with well-formed headers is read as one frame: that acknowledgement. |
| `AckWire.RepliesAreWhole` | crates/risk-bench3/src/bench_entry.rs:500-530 | A series of encoded responses is a series of whole frames with these acknowledgements. |
| `AckWire.ReadReplies` | crates/risk-bench3/src/bench_setup.rs:168-307 | End to end: encoded responses of any size, cut into reads anywhere, are read back as exactly their acknowledgements, in order, unless a read fails; and none does if they are small. |
| `AckWire.RepliesReadIff` | crates/risk-bench3/src/bench_setup.rs:168-200 | They are read however they are cut if and only if they are small in this sense. |
| `RoundRobin.EveryTurnComes` | crates/risk-bench3/src/bench_http.rs:653-660 | The round robin comes to every connection. |
| `BatchWorkers.RowsByFate` | crates/risk-bench3/src/bench_http.rs:266-294 | Every finished row is acknowledged, timed out, dropped or was never sent. |
| `BatchWorkers.UnsentIff` | crates/risk-bench3/src/bench_http.rs:241-256 | Rows are left unsent exactly when a recorded token larger than a batch was written and finished. |
| `BatchWorkers.OldestIsLeast` | crates/risk-bench3/src/bench_setup.rs:376-382 | The oldest deadline is the least one, and there is none exactly when nothing is active. |
| `BatchWorkers.SumDropped` | crates/risk-bench3/src/bench_http.rs:266-276 | The rows counted for dropped tokens are those of the recorded ones, at least one each. |
| `BatchWorkers.SumTimedOut` | crates/risk-bench3/src/bench_http.rs:278-294 | The rows counted for timed-out requests are those the recorded ones carry. |
| `BatchWorkers.DroppedAreRows` | crates/risk-bench3/src/bench_http.rs:266-276 | What is added to the dropped counter are the rows of the tokens finished as dropped. |
| `BatchWorkers.TimedOutAreRows` | crates/risk-bench3/src/bench_http.rs:278-294 | What is added to the timeout counter are the rows of the requests finished as timed out. |
| `BatchWorkers.StepSound` | crates/risk-bench3/src/bench_http.rs:637-795 | A step that finishes tokens of one connection one way keeps the invariant: each token in one place, connections within the cap, acknowledgements matched to written requests first to first, counters equal to what was finished. |
| `BatchWorkers.InitialSound` | crates/risk-bench3/src/bench_http.rs:611-634 | The loop starts with everything accounted for. |
| `BatchWorkers.Prime` | crates/risk-bench3/src/bench_http.rs:228-258 | The first pending request starts being written with a new deadline, unless one is; the clock is read only then. |
| `BatchWorkers.PrimedSound` | crates/risk-bench3/src/bench_http.rs:228-258 | Priming keeps the invariant and the connection's line. |
| `BatchWorkers.PickConn` | crates/risk-bench3/src/bench_http.rs:652-664 | The connection found is the first in turn with room. |
| `BatchWorkers.NoRoomLeft` | crates/risk-bench3/src/bench_http.rs:652-664 | When none is found every connection is full. |
| `BatchWorkers.FirstRoomIsFirst` | crates/risk-bench3/src/bench_http.rs:652-664 | The one found is the first with room, asking round and round from the next in turn. |
| `BatchWorkers.HandedSound` | crates/risk-bench3/src/bench_http.rs:665-673 | The first local token joins the end of a connection with room, which is then primed; the invariant holds. |
| `BatchWorkers.Assign` | crates/risk-bench3/src/bench_http.rs:651-674 | Tokens are handed over one by one, each to the first connection in turn with room. |
| `BatchWorkers.AssignedSound` | crates/risk-bench3/src/bench_http.rs:651-674 | Tokens leave in order, until none is left or every connection is full. |
| `BatchWorkers.DropPending` | crates/risk-bench3/src/bench_http.rs:266-276 | What was not started is dropped and counted. |
| `BatchWorkers.TimeOutActives` | crates/risk-bench3/src/bench_http.rs:278-294 | What was started is timed out and counted, the request being written first; the histories end. |
| `BatchWorkers.FailConn` | crates/risk-bench3/src/bench_http.rs:296-306 | A connection fails: drop, then time out. |
| `BatchWorkers.FailedSound` | crates/risk-bench3/src/bench_http.rs:296-306 | Nothing on a failed connection survives; what was pending is dropped and what was started is timed out, each once; its histories start anew. |
| `BatchWorkers.Sweep` | crates/risk-bench3/src/bench_http.rs:676-684 | Connections whose oldest deadline has passed fail, one after the other. |
| `BatchWorkers.SweptConn` | crates/risk-bench3/src/bench_http.rs:676-684 | The sweep empties exactly those connections and leaves the others as they are. |
| `BatchWorkers.OldestNotOverdue` | crates/risk-bench3/src/bench_http.rs:677-681 | When the oldest deadline has not passed, none has. |
| `BatchWorkers.NoneOverdueLeft` | crates/risk-bench3/src/bench_http.rs:676-684 | After a sweep no request is overdue. |
| `BatchWorkers.DropLocal` | crates/risk-bench3/src/bench_setup.rs:384-399 | The tokens no connection has taken are dropped and counted. |
| `BatchWorkers.DropAll` | crates/risk-bench3/src/bench_setup.rs:384-399 | So is what is pending on the connections. |
| `BatchWorkers.TimeOutAll` | crates/risk-bench3/src/bench_http.rs:703-706 | What all connections have started is timed out and counted. |
| `BatchWorkers.Drain` | crates/risk-bench3/src/bench_http.rs:695-708 | Giving up: the three of them in order. |
| `BatchWorkers.DrainedSound` | crates/risk-bench3/src/bench_http.rs:695-708 | At the end of the drain everything popped has been finished. |
| `BatchWorkers.DrainFinishes` | crates/risk-bench3/src/bench_http.rs:695-708 | The drain drops the local tokens, then what connections have not started to write, then times out what they have, in that order. |
| `BatchWorkers.Acknowledge` | crates/risk-bench3/src/bench_http.rs:320-338 | An acknowledgement finishes the oldest request waiting; if that was recorded a success counts what it reports, a failure the rows of the request. |
| `BatchWorkers.ReadAcks` | crates/risk-bench3/src/bench_http.rs:722-750 | Acknowledgements are read until none is left; a broken read, or one acknowledgement too many, fails the connection. |
| `BatchWorkers.ReadAnswers` | crates/risk-bench3/src/bench_http.rs:722-750 | The acknowledgements read finish the oldest requests, in order, and are matched to exactly these; what is left is as before, or failed. |
| `BatchWorkers.ReadReplies` | crates/risk-bench3/src/bench_http.rs:722-750 | Reading logs exactly these acknowledgements, each with its place, success and count, and the request it answers. |
| `BatchWorkers.EventReplies` | crates/risk-bench3/src/bench_http.rs:716-750 | An event reads only on a connection that waits for an acknowledgement; no other event acknowledges anything. |
| `BatchWorkers.ReadSound` | crates/risk-bench3/src/bench_http.rs:722-750 | Reading keeps the invariant. |
| `BatchWorkers.SentSound` | crates/risk-bench3/src/bench_http.rs:765-771 | A request written whole waits at the end with a new deadline: the invariant holds and the connection's line stays. |
| `BatchWorkers.WriteOut` | crates/risk-bench3/src/bench_http.rs:752-786 | Requests are primed and written one after the other until the socket takes no more; a broken write fails the connection. |
| `BatchWorkers.FirstWrite` | crates/risk-bench3/src/bench_http.rs:752-771 | The request written next is the next of the connection's line. |
| `BatchWorkers.WritesInOrder` | crates/risk-bench3/src/bench_http.rs:752-786 | The requests written whole are exactly the next ones of the line, in order, as many as there are whole writes. |
| `BatchWorkers.WrittenSound` | crates/risk-bench3/src/bench_http.rs:752-786 | Writing keeps the invariant. |
| `BatchWorkers.HandleEvent` | crates/risk-bench3/src/bench_http.rs:716-789 | Reads come before writes and only while something waits; events of unknown connections change nothing. |
| `BatchWorkers.HandleEvents` | crates/risk-bench3/src/bench_http.rs:716-789 | Any list of events is handled in order. |
| `BatchWorkers.EventsSound` | crates/risk-bench3/src/bench_http.rs:716-789 | Any list of events keeps the invariant. |
| `BatchWorkers.IsIdle` | crates/risk-bench3/src/bench_http.rs:686-690 | Idle exactly when everything popped has been finished. |
| `BatchWorkers.TakeTurn` | crates/risk-bench3/src/bench_http.rs:638-684 | A turn up to its exit checks: arrivals unless pacing is over, hand-over, then the sweep at a new reading of the clock. |
| `BatchWorkers.OneTurn` | crates/risk-bench3/src/bench_http.rs:637-795 | A whole turn with its two exits and the start of draining. |
| `BatchWorkers.LoopEndsIff` | crates/risk-bench3/src/bench_http.rs:686-708 | A turn ends the loop exactly when pacing is over and after the sweep nothing is left or draining has lasted its time. |
| `BatchWorkers.EventsInOrder` | crates/risk-bench3/src/bench_http.rs:716-789 | In any other turn its events are then handled, each once and in order. |
| `BatchWorkers.WholeTurnSound` | crates/risk-bench3/src/bench_http.rs:637-795 | A turn keeps the invariant, pops what arrived, and ends the loop only when everything popped has been finished. |
| `BatchWorkers.RunWorker` | crates/risk-bench3/src/bench_http.rs:637-795 | Over any environment: the success counter is what the successes that answered recorded requests report, the error counter the rows of the recorded requests that failures answered, and each of these acknowledgements was read at its own place of the environment; the invariant holds at the end, the tokens popped are those that arrived, and a loop that ends by itself has finished everything. |
| `BatchWorkers.RunCame` | crates/risk-bench3/src/bench_http.rs:637-795 | The acknowledgements of a run are ones its environment gave on that connection, each at one place, one after the other. |
| `BatchWorkers.RunSound` | crates/risk-bench3/src/bench_http.rs:637-795 | The same of the run function. |
| `BatchWorkers.SettledAccounts` | crates/risk-bench3/src/bench_http.rs:637-796 | At the end each token was finished exactly as often as popped, and popped rows are those acknowledged, timed out, dropped and never sent. |
| `BatchWorkers.HeldWasPopped` | crates/risk-bench3/src/bench_http.rs:637-795 | What is on a connection was popped ... |
| `BatchWorkers.EndedWasPopped` | crates/risk-bench3/src/bench_http.rs:637-795 | ... and so was what was finished. |
| `BatchWorkers.CarriedIff` | crates/risk-bench3/src/bench_http.rs:241-256 | Requests carry all rows of their tokens if and only if every recorded token fits its batch. |
| `BatchWorkers.AloneTimesOut` | crates/risk-bench3/src/bench_http.rs:637-684 | A token that arrives alone is written, and on a slow clock times out in the same turn with the rows it carries. |
| `BatchWorkers.BalancesIff` | crates/risk-bench3/src/bench_http.rs:637-796 | For any tokens: successes, errors, timeouts and drops add up to the rows popped, in every environment that takes them and reports the rows of what it acknowledges, if and only if every recorded token fits its batch. |
| `BatchWorkers.CountedReplies` | crates/risk-bench3/src/bench_http.rs:722-736 | When successes report the rows of what they answer, the two counters hold the rows of the acknowledged requests. |
| `BatchWorkers.RepliesCount` | crates/risk-bench3/src/bench_http.rs:722-736 | When every request carries the rows every success reports, each success reports the rows of the request it answers. |
| `BatchWorkers.PacedRunBalances` | crates/risk-bench3/src/bench_agg.rs:45-68 | Tokens as the pacer issues them fill their batch; when successes report whole batches, the counters of any run that ends by itself balance, over any environment. |
| `H2Accounting.NextIsNew` | crates/risk-bench3/src/bench_h2.rs:488-490 | Until all words have been handed out the next batch number is new. |
| `H2Accounting.CountedAdds` | crates/risk-bench3/src/bench_decode.rs:404-433 | Each counter of a batch grows by what the response adds to it: rows by outcome and status class, samples, second-level uses and decisions. |
| `H2Accounting.Settle` | crates/risk-bench3/src/bench_decode.rs:404-459 | A response is counted in its batch, in all its counters, and the batch is finalised when it is sealed and waits for nothing more. |
| `H2Accounting.CountedCoherent` | crates/risk-bench3/src/bench_decode.rs:404-459 | Counting the response of a request that is due keeps the invariant: the counters of each batch are what was told of it, and a finalised batch was full with every request counted once. |
| `H2Accounting.Answer` | crates/risk-bench3/src/bench_h2.rs:436-454 | A response, error or timeout of a request in flight is counted; unknown numbers change nothing. |
| `H2Accounting.RemovedCoherent` | crates/risk-bench3/src/bench_h2.rs:436-437 | A request taken out of flight leaves its connection's count by one, and if recorded is still to be counted. |
| `H2Accounting.AnsweredSound` | crates/risk-bench3/src/bench_h2.rs:436-454 | Answering keeps the invariant and takes exactly that request out of flight. |
| `H2Accounting.AnswerEach` | crates/risk-bench3/src/bench_h2.rs:433-456 | Any list of responses is counted in order. |
| `H2Accounting.ExpireAll` | crates/risk-bench3/src/bench_h2.rs:610-625 | A set of requests times out, in whatever order the hash map gives them. |
| `H2Accounting.ExpiredSound` | crates/risk-bench3/src/bench_h2.rs:610-625 | Whatever the order, exactly these are out of flight afterwards, and the invariant holds. |
| `H2Accounting.OpenedCoherent` | crates/risk-bench3/src/bench_h2.rs:488-512 | A batch opens, empty, unless one is open, under a number that no batch waiting or finalised has. |
| `H2Accounting.JoinBatch` | crates/risk-bench3/src/bench_h2.rs:485-528 | A recorded request joins the open batch, or a new one; the one that fills it seals it. |
| `H2Accounting.JoinedCoherent` | crates/risk-bench3/src/bench_h2.rs:514-524 | The batch then waits for that request too, and one more request is recorded. |
| `H2Accounting.Number` | crates/risk-bench3/src/bench_h2.rs:482-528 | A request gets its number and, if recorded, its batch. |
| `H2Accounting.NumberedCoherent` | crates/risk-bench3/src/bench_h2.rs:482-483 | A request is numbered, round and round; as yet it belongs to no batch and is not in flight. |
| `H2Accounting.Send` | crates/risk-bench3/src/bench_h2.rs:539-607 | What was numbered goes in flight, or is counted as timed out at once. |
| `H2Accounting.SentCoherent` | crates/risk-bench3/src/bench_h2.rs:539-607 | What was numbered goes in flight, unless its number is in flight, or is counted as timed out at once; either way the invariant holds again. |
| `H2Accounting.CountsKeptIff` | crates/risk-bench3/src/bench_h2.rs:530-560 | Sending keeps the connection counts right if and only if the number taken is not in flight already. |
| `H2Accounting.PickConn` | crates/risk-bench3/src/bench_h2.rs:459-470 | The connection found is the first in turn below the cap. |
| `H2Accounting.NoRoomLeft` | crates/risk-bench3/src/bench_h2.rs:459-470 | When none is found every connection has exactly its cap in flight. |
| `H2Accounting.FirstRoomIsFirst` | crates/risk-bench3/src/bench_h2.rs:459-470 | The one found is the first below the cap, asking round and round from the next in turn. |
| `H2Accounting.RecordedFirst` | crates/risk-bench3/src/bench_h2.rs:472-486 | A recorded token is spent before any other, its request and no other is recorded, and the next connection's turn comes. |
| `H2Accounting.IssueOne` | crates/risk-bench3/src/bench_h2.rs:472-607 | One token becomes one request, recorded tokens first. |
| `H2Accounting.IssuedSound` | crates/risk-bench3/src/bench_h2.rs:472-607 | It keeps the invariant, and a recorded token becomes a recorded request. |
| `H2Accounting.IssueIfRoom` | crates/risk-bench3/src/bench_h2.rs:458-608 | A token is issued if some connection has room; otherwise nothing changes. |
| `H2Accounting.IssueAll` | crates/risk-bench3/src/bench_h2.rs:458-608 | Tokens are issued one by one until no more can be. |
| `H2Accounting.IssuedAllKeeps` | crates/risk-bench3/src/bench_h2.rs:458-608 | What every single issue keeps, all of them together keep, and then nothing more can be issued. |
| `H2Accounting.IssuedAllSound` | crates/risk-bench3/src/bench_h2.rs:458-608 | While numbers keep apart the invariant holds, and afterwards no token is left or every connection is full. |
| `H2Accounting.Refill` | crates/risk-bench3/src/bench_h2.rs:423-431 | Tokens are taken up to the local cap, recorded ones first. |
| `H2Accounting.RefilledRight` | crates/risk-bench3/src/bench_h2.rs:423-431 | Tokens are taken while there is room, others only when all recorded ones have been. |
| `H2Accounting.PendingCapIs` | crates/risk-bench3/src/bench_h2.rs:403-407 | The local cap is eight tokens for each request the connections may hold, and at least one. |
| `H2Accounting.TakeTurn` | crates/risk-bench3/src/bench_h2.rs:422-625 | One turn up to its exit checks. |
| `H2Accounting.TurnSound` | crates/risk-bench3/src/bench_h2.rs:422-625 | It keeps the invariant and leaves nothing overdue. |
| `H2Accounting.Seal` | crates/risk-bench3/src/bench_h2.rs:699-712 | A batch is sealed, and finalised if nothing of it is in flight. |
| `H2Accounting.Close` | crates/risk-bench3/src/bench_h2.rs:699-712 | After the loop the open batch is sealed, then every batch left, in whatever order. |
| `H2Accounting.ClosedSound` | crates/risk-bench3/src/bench_h2.rs:699-712 | With nothing in flight, every recorded request was counted once in the one batch it belongs to, each batch was finalised once, all but the last are full, and none is left. |
| `H2Accounting.OneTurn` | crates/risk-bench3/src/bench_h2.rs:422-697 | A whole turn with its two exits, draining and the late response. |
| `H2Accounting.LoopEndsIff` | crates/risk-bench3/src/bench_h2.rs:627-669 | A turn ends the loop exactly when no token is left and either nothing is in flight or draining has lasted its time. |
| `H2Accounting.WholeTurnSound` | crates/risk-bench3/src/bench_h2.rs:422-712 | A turn keeps the invariant; when it ends the loop nothing is left. |
| `H2Accounting.RunKeeps` | crates/risk-bench3/src/bench_h2.rs:422-697 | What every turn keeps, a run keeps. |
| `H2Accounting.InitialSound` | crates/risk-bench3/src/bench_h2.rs:392-420 | The loop starts with everything accounted for. |
| `H2Runs.RunWorker` | crates/risk-bench3/src/bench_h2.rs:392-713 | Over any environment: while numbers keep apart the invariant holds at the end, each recorded request counted was told once what its environment says of it, and a loop that ends by itself leaves nothing uncounted, no batch and no recorded token; and worker, finished batches and log are those of the run function the other results speak of. |
| `H2Runs.RunTells` | crates/risk-bench3/src/bench_h2.rs:422-713 | What a request is told is the first answer that comes under its number after it was sent and before a turn in which its deadline has passed; or a timeout, in the turn in which its deadline has passed or the drain is over; or a timeout because it could not be sent. |
| `H2Accounting.RunSound` | crates/risk-bench3/src/bench_h2.rs:422-713 | The same of the run function; numbers keep apart when no request went in flight under a number in flight. |
| `H2Accounting.ClosedSizes` | crates/risk-bench3/src/bench_h2.rs:514-524 | How many batches there are, and the size of each, follow from the number of recorded requests. |
| `H2Accounting.ClosedRows` | crates/risk-bench3/src/bench_decode.rs:404-459 | Counter by counter, the finalised batches add up to what the responses counted add. |
| `H2Runs.TimeoutAdds` | crates/risk-bench3/src/bench_decode.rs:392-402 | A timeout is one late row, counted under the last decision, and nothing else. |
| `H2Runs.EveryoneTold` | crates/risk-bench3/src/bench_h2.rs:422-713 | When nothing is left every recorded request was told something. |
| `H2Runs.RunAccounts` | crates/risk-bench3/src/bench_h2.rs:422-713 | When a run ends by itself each recorded token taken became a request told once what the environment says of it; every counter of every finalised batch is what these responses to its requests add, and over all batches what all add; and the `k`-th batch finalised has its share of the tokens: a full batch, or the rest in the last. |
| `H2Runs.RunBalances` | crates/risk-bench3/src/bench_h2.rs:422-713 | When every response of the environment has one row, successes, errors and timeouts of all batches add up to the recorded tokens taken, and those of each batch to its share. |
| `H2Accounting.NumbersLast` | crates/risk-bench3/src/bench_h2.rs:423-431 | No run issues more requests than tokens were offered. |
| `H2Numbers.NextIsFree` | crates/risk-bench3/src/bench_h2.rs:482-483 | Until as many requests as words have been numbered, the next number is not in flight. |
| `H2Numbers.SumsTell` | crates/risk-bench3/src/bench_h2.rs:434-437 | Counts that are nowhere too low are right if and only if their sum is. |
| `H2Numbers.TrackedTells` | crates/risk-bench3/src/bench_h2.rs:434-437 | What every step keeps tells whether the counts are right. |
| `H2Numbers.RunCountsIff` | crates/risk-bench3/src/bench_h2.rs:422-713 | At the end of any run, however long, every connection count is the number of its requests in flight if and only if no request ever went in flight under a number in flight. |
| `H2Numbers.FewTokensKeepApart` | crates/risk-bench3/src/bench_h2.rs:423-431 | When no more tokens are offered than there are numbers, numbers keep apart. |
| `H2Numbers.QuietTurn` | crates/risk-bench3/src/bench_h2.rs:422-697 | A turn that answers every request but the first, and issues one under the next number. |
| `H2Numbers.RepeatedNumberMisleads` | crates/risk-bench3/src/bench_h2.rs:482-483 | 2^32 + 1 such turns are a run in which a number repeats while it is in flight, and a count is wrong. |

## Left out

- Rounding, infinities and the order of floating-point additions: scores are real numbers.
- The atlas and MLP certifiers: any second certifier is an arbitrary function, required to answer rightly.
- The rescue router's table lookup: the router is an arbitrary function of the entry checkpoint and the prefix score.
- Building QuickScorer packs: not in the repository; packs are described by a predicate.
- File formats, manifests, memory maps, command lines, output writers and statistics writers.
- AVX2 variants, thread pools, pinning and parallel row loops.
- `traverse_rank_nomiss` and the other approximate traversals of `lib.rs`: they differ from the modelled traversals only in which of the modelled exits and walks they use.
- The late-stage quantisation spans and the second-generation prefix runtime of `risk-quickscorer`.
- Prediction.PredictRow: not for rows with a missing value that a split sends left, which its entry point, named for rows without missing values, does not refuse: it leaves the test out, and such a value goes right. What the loops then walk is stated for every row.
- Prediction.Continue: the plan's suffix bounds are those of the whole ensemble, so plans cut to a maximum number of trees are not covered.
- CompactPacks.CompileCompact: a plan whose trees share nodes between branches and have exactly 65536 reachable nodes is not covered; trees proper never have that many.
- CompactPacks.CompileTree: the same.
- CompactPacks.NumberTree: the same.
- Histograms.SortCounts: the sorting algorithm of the standard library is modelled as an insertion sort.
- Sockets, polling, clocks and queues: the environment of the workers is an arbitrary list of rounds, with an arbitrary clock that does not run backwards.
- BatchWorkers.FailConn: reconnecting succeeds; in the code a connection that cannot be reopened ends the worker with an error.
- BatchWorkers.RunWorker: the wire inside a connection is the writer's and the parser's; here a write yields whole, part or error and a read yields an acknowledgement, nothing or an error.
- BatchWorkers.BalancesIff: the number of successes in an acknowledgement is the server's; the environments considered report the rows of the requests they acknowledge.
- Latencies, the HTTP/1 worker's decision and status counters, and the flushing of local counters into shared ones.
- H2Runs.RunWorker: a connection that cannot be reopened ends the worker with an error in the code; the model's run goes on. Request bodies and their sequence numbers are not modelled.
- H2Accounting.RunSound: not for runs in which a request goes in flight under a number in flight, where it is false of the counts, nor for runs of more than 2^64 requests, whose batch numbers may repeat.
- The single-request HTTP/1 worker, its write path, the timings header and the other body formats.
- AckWire.GenericReads: which byte strings are valid text is an arbitrary predicate.
- The aggregator and the pacer: totals over the whole program are not modelled.
- Queue quotas shared between workers: what a worker is given is arbitrary.
