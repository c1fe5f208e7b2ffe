# vectorlink: a verified model of its history, push and ranking logic

vectorlink keeps one versioned dataset per domain. A push chunks and embeds the
documents of a commit, deletes and appends rows, and tags the commit onto a
version. Compaction replays the history on a side branch and moves tags onto
it. Search and entity resolution rank what the index returns. This project
models that logic in Dafny and proves what each step keeps and what whole runs
guarantee. Code that changes things step by step is modelled as classes and
methods with loops, each proved against a specification function or predicate;
the properties are lemmas about those specifications.

`dafny verify dfyconfig.toml` checks everything.

| file | modules | what it models |
|---|---|---|
| `outcomes.dfy`, `collections.dfy` | Outcomes, Collections, Lexical | results, walking a hash map in any order, sorting, string order |
| `rollup.dfy` | Digits, Layouts, Rollup | index segments: batch roll-up and base-3 cascade |
| `boundaries.dfy` | Boundaries | retagging commits to boundary versions |
| `snapshots.dfy` | Snapshots | version deltas and their replay |
| `compaction.dfy` | Store | delta-fork compaction, clean-up, integrity check |
| `reservation.dfy` | Reservation | the reserve/run/release protocol of pushes |
| `embedding.dfy`, `pipeline.dfy`, `push.dfy`, `commit_write.dfy` | Embedding, Pipeline, Push, CommitWrite | from operations to a tagged commit |
| `resolve.dfy`, `topk.dfy` | Resolve, TopK | entity resolution and its neighbour lists |
| `ranking.dfy` | Duplicates, Fusion | duplicate pairs and rank fusion |
| `recovery.dfy`, `handle_cache.dfy` | IndexRecovery, HandleCache | hidden index directories; the LRU handle cache |
| `text.dfy`, `chunks.dfy` | Utf8, CommitTag, Chunks | commit tags and chunk windows |

Hash maps are walked by picking an arbitrary remaining element, so every result
holds for every iteration order. Distances and embeddings are reals. Lance is
abstracted to immutable rows per (branch, version), a tag map, a branch set and
a stack of index segments. What the outside decides — replies of the embedding
provider, failing storage steps, crash points — is a parameter, and the proofs
hold for every value of it.

## Where the code does not do what its text says

The model follows the code. Each point has its exact condition, an example or
both among the members below.

- Boundary positions are 0, 3, 12, 39, … (partial sums of the powers of 3); the
  comments say 0, 3, 9, 27 (`Boundaries.BoundClosedForm`).
- The batch roll-up merges smallest partitions first, which swallows the newer
  segments; it leaves the announced hierarchy only for fewer segments than the
  base or an exact power of it (`Rollup.RollupReachesLayout`, `Rollup.RollupOfThirteen`).
- A delta deletes removed documents only, not the old chunks of changed ones; a
  replayed version equals the original exactly when no surviving document ever
  dropped a chunk (`Snapshots.ReplayFaithful`, `Snapshots.ShrinkingDocumentStaysLong`).
- Compaction loses the first commit of its version order exactly when that was
  tagged on an older rebuild branch that can be deleted (`Store.CommitsSurvive`,
  `Store.LoseLowest`). The compaction after a lossless one is safe exactly when the
  two oldest commits differ or indexing the second one writes a version
  (`Store.Dataset.RetagWithDeltaForks`, `Store.CompactionKeepsAnchor`,
  `Store.AnchoredIffSafe`). Otherwise both come to one version, and the order the
  hash map gives them decides whether the second is lost (`Store.LoseSecond`,
  `Store.LoseSecondCommit`); no run without deletions loses its first commit in
  another way (`Store.FirstLossIsATie`).
- Deleting main's index can leave rebuild tags only, and the next compaction then
  loses a commit; a deletion is safe exactly when an older commit off the rebuild
  branches stays (`Store.DeletionIsSafe`, `Store.CompactionAfterDeletion`).
- Compaction forks main's rows at the first commit's version number; the comment
  says it resolves the commit's branch. Every moved commit is then replayed on
  main's rows: a document comes out right exactly under the condition of
  `Store.CompactionKeepsSnapshots`, and two unchanged commits can come out empty
  (`Store.HideDocuments`, `Snapshots.WrongBaseHidesDocuments`).
- The check for truncated streams counts a flushed Changed document twice; it is
  sure to catch every truncation exactly when no full micro-batch has a Changed
  document (`Push.TruncationCaughtForSure`, `Push.TruncationAlwaysCaught`,
  `Push.TruncatedStreamAccepted`).
- A push repeated after a crash behind its append duplicates Inserted documents;
  the text calls it idempotent (`CommitWrite.RepushAfterAppend`).
- Any two branches of one domain can both be accepted for the same commit,
  because the in-flight key has the branch and the tag does not
  (`Reservation.CrossBranchRace`); without such rivals an accepted commit is
  untagged (`Reservation.AcceptedIsUntagged`).
- Merged neighbour lists are not sorted and not cut at k, while resolution reads
  their first k entries. A neighbour is read exactly when fewer than k others were
  reported before it, however near it is (`TopK.ReadIffReportedEarly`,
  `TopK.NearerNeighbourUnread`).
- Joined edge keys of different set records can coincide, exactly when one id goes
  on where the other ends in a colon or is followed by two (`Resolve.EdgeKeysMeet`).
- Decoding accepts tags that encoding never writes, exactly the non-canonical ones
  (`CommitTag.EncodingsAreCanonical`, `CommitTag.DecodingHasAliases`).
- Token offsets that go back inside a window make the slice panic
  (`Chunks.ChunkText`, `Chunks.MonotoneGoesOn`).

## Model

| member | source | states |
|---|---|---|
| Rollup.Ilog | src/store/lance/rollup.rs:36-47 | the exponent found brackets the input between two powers of the base; 0 for 0 |
| Rollup.RollupPartitions | src/store/lance/rollup.rs:78-96 | terminates; the ranges tile everything but the last digit, hold at least the base each, and with the rest are the base-b layout |
| Rollup.MergeKeepsCoverage | src/store/lance/rollup.rs:113-171 | joining the newest n segments keeps the sequence of covered deltas and leaves n - 1 fewer |
| Rollup.IndexStack.ExponentialRollup | src/store/lance/rollup.rs:113-171 | the merges in the code's order always find enough segments and leave exactly the described stack |
| Rollup.RolledUpKeepsCoverage | src/store/lance/rollup.rs:113-171 | the roll-up covers the same deltas in the same order with as many segments as the total's base-b digit sum |
| Rollup.RollupReachesLayout | src/store/lance/rollup.rs:98-112 | from unit segments the roll-up leaves the announced power-of-base hierarchy if and only if there are fewer segments than the base or a power of it |
| Rollup.RollupOfThirteen | src/store/lance/rollup.rs:71-77 | 13 unit segments end as 1, 1 and 11 |
| Rollup.MergesNeeded | src/store/lance/rollup.rs:181-189 | the number of merges is how often 3 divides the delta count |
| Rollup.IndexStack.IncrementalCascade | src/store/lance/rollup.rs:204-262 | runs that many merge(3) rounds, stopping below three segments, and reports the counts before and after |
| Rollup.IndexStack.IndexedPush | src/store/lance/rollup.rs:191-203 | an indexed push keeps the stack equal to the base-3 layout of the push count, with all deltas covered in order |
| Rollup.CascadeCounts | src/store/lance/rollup.rs:191-203 | adding one segment and cascading is adding one in base 3; the fewer-than-three guard never fires |
| Rollup.TotalMergesClosedForm | src/store/lance/rollup.rs:181-262 | merges made over n pushes total (n - base-3 digit sum of n) / 2 |
| Rollup.SegmentsAreLogarithmic | src/store/lance/rollup.rs:9-15 | at most two segments per base-3 digit of the push count |
| Lexical.StrLeMeans | src/store/lance/dedup.rs:71-79 | ids are compared character by character, a prefix first |
| Layouts.LayoutShape | src/store/lance/rollup.rs:67-70 | layout sizes are powers of the base and never increase from oldest to newest |
| Layouts.LayoutCounts | src/store/lance/rollup.rs:191-198 | a size b^k occurs as often as the k-th base-b digit says |
| Layouts.LayoutGreedy | src/store/lance/rollup.rs:87-93 | taking the largest power first is the base-b layout |
| Boundaries.BoundaryPositions | src/store/lance/commit.rs:720-735 | the generated positions are exactly the boundaries below the total, about log3 of it |
| Boundaries.BoundClosedForm | src/store/lance/commit.rs:727-733 | the k-th boundary is 3 (3^k - 1) / 2 |
| Boundaries.TagTable.RetagToBoundaries | src/store/lance/commit.rs:701-790 | kept are exactly the positions 3 (3^k - 1) / 2 and the last; every commit ends at the version of the greatest kept position at or below its own, whatever order ties take |
| Boundaries.TagTable.ExecutePlan | src/store/lance/commit.rs:755-781 | deleting and recreating the planned tags gives the planned table |
| Boundaries.NeverNewer | src/store/lance/commit.rs:714-781 | no commit is lost and none moves to a newer version |
| Boundaries.OrderPreserved | src/store/lance/commit.rs:714-781 | version order between commits is preserved |
| Boundaries.FewVersions | src/store/lance/commit.rs:714-781 | no more distinct versions are left than boundary positions |
| Boundaries.VersionsAreLogarithmic | src/store/lance/commit.rs:714-781 | more than k + 1 versions left need more than 3 (3^k - 1) / 2 commits |
| Boundaries.RetaggingIsIdempotent | src/store/lance/commit.rs:714-781 | a second run changes no commit's version, however either run broke ties |
| Snapshots.ScanDocIdContent | src/store/lance/commit.rs:479-521 | the scan has a pair (i, c) under a document exactly if a row of that document has chunk index i and content c |
| Snapshots.SameScans | src/store/lance/commit.rs:479-521 | two versions scan alike exactly if each has all rows of the other, by document, index and content |
| Snapshots.DeltaBetween | src/store/lance/commit.rs:380-436 | to delete are the documents only the first version has; to append, as often as they are there, the rows of the second version's documents whose (index, content) pairs differ |
| Snapshots.ScanFullRows | src/store/lance/commit.rs:524-628 | each row of the wanted documents as often as it is there and no others, by document id and chunk index |
| Snapshots.ComputeDelta | src/store/lance/commit.rs:396-436 | rows of added and changed documents to append, removed documents only to delete |
| Snapshots.AppliedRowsScan | src/store/lance/commit.rs:439-475 | applying a computed delta does to a scan exactly what the description says |
| Snapshots.ReplayAccumulates | src/store/lance/commit.rs:893-938 | after i deltas exactly commit i's documents exist, each with the union of its chunks since it was last added |
| Snapshots.ReplayFaithfulFor | src/store/lance/commit.rs:893-938 | a document is shown as its commit had it if and only if it never dropped a chunk |
| Snapshots.ReplayFaithful | src/store/lance/commit.rs:893-938 | a rebuilt version scans as its commit if and only if no surviving document ever dropped a chunk |
| Snapshots.UnchangedDocumentsReplay | src/store/lance/commit.rs:893-938 | in particular when documents are only added and removed |
| Snapshots.RebuiltFrom | src/store/lance/commit.rs:893-938 | replayed on any rows, a document keeps what those had of it until a delta removes it, and gets what deltas read since |
| Snapshots.ReplayFaithfulFrom | src/store/lance/commit.rs:893-938 | so a version rebuilt on any rows scans as its commit if and only if each document comes out right |
| Snapshots.WrongBaseHidesDocuments | src/store/lance/commit.rs:870-938 | replayed on nothing, an unchanged document never appears, although nothing was dropped |
| Snapshots.SameScansNoDelta | src/store/lance/commit.rs:396-436 | a delta is empty exactly when the two scans are the same |
| Snapshots.ShrinkingDocumentStaysLong | src/store/lance/commit.rs:426-429 | a document cut from two chunks to one still shows both |
| Store.RebuildNames | src/store/lance/schema.rs:133-135 | a rebuild branch is one whose name is the prefix and anything behind it |
| Store.Dataset.CleanUp | src/store/lance/commit.rs:152-264 | removes exactly the orphaned tags and then the rebuild branches no remaining tag is on, but for the deletions that fail |
| Store.LaterCleanUpFinishes | src/store/lance/commit.rs:152-264 | whatever deletions fail, a later clean-up reaches the dataset an undisturbed one would have left |
| Store.CleanUpIsFinal | src/store/lance/integrity.rs:399-424 | afterwards no tag is orphaned, every rebuild branch is referenced, and a second clean-up does nothing |
| Store.Dataset.ApplyDelta | src/store/lance/commit.rs:439-475 | delete then append on a branch handle, each writing one version only if it has something to do, with the count of every row; succeeds iff the steps it takes do |
| Store.Dataset.CreateBranch | src/store/lance/mod.rs:795-834 | forks a version of main, or fails and changes nothing |
| Store.Dataset.Replay | src/store/lance/commit.rs:884-938 | phase 1 touches no tag, leaves commit i's replayed rows at the i-th recorded version, and succeeds iff every commit resolves and no step it takes fails |
| Store.Dataset.MoveTags | src/store/lance/commit.rs:963-994 | phase 2 puts every planned tag on the rebuild branch and leaves the others |
| Store.Dataset.MigrateBoundaryTags | src/store/lance/commit.rs:996-1041 | boundary tags move only if they are on an older rebuild branch |
| Store.Dataset.RetagWithDeltaForks | src/store/lance/commit.rs:812-1095 | succeeds iff main has the first commit's version number and no replay step fails; a failure leaves the dataset as it was, or with an unreferenced rebuild branch that could not be deleted; otherwise it is compacted as described, with the counts returned, but for failed deletions: a later clean-up does those, unless an older rebuild branch that holds the first commit stays, and then no commit is lost; the second replayed version is a new one iff the two oldest commits differ or full-text indexing writes a version |
| Store.CommitsSurvive | src/store/lance/commit.rs:826-1076 | no commit is lost if and only if the lowest-version commit was not on a rebuild branch; no other commit ever is |
| Store.LoseLowest | src/store/lance/commit.rs:1043-1076 | a compaction of a dataset whose one lowest commit is on a rebuild branch, run with nothing failing: exactly that commit is gone |
| Store.FirstLossIsATie | src/store/lance/commit.rs:826-1076 | in a run without deletions the first commit a compaction loses has the same version as one off the rebuild branches |
| Store.TieCanComeFirst | src/store/lance/commit.rs:858-868 | all commits being on main, if the second was replayed to no new version, some order of the next compaction starts with it |
| Store.TieIsLost | src/store/lance/commit.rs:1043-1076 | and along such an order exactly that commit is lost |
| Store.LoseSecond | src/store/lance/commit.rs:826-1076 | two compactions of any dataset whose commits are on main and whose two oldest show the same, run with nothing failing and indexing writing nothing: the second oldest is gone |
| Store.LoseSecondCommit | src/store/lance/commit.rs:826-1076 | three pushes without documents and those two runs |
| Store.CompactedIsClean | src/store/lance/integrity.rs:399-424 | every tag left resolves, the integrity check finds no orphaned tag or stale branch, one rebuild branch is left and clean-up does nothing |
| Store.CompactionKeepsSnapshots | src/store/lance/commit.rs:870-1041 | wherever the first commit is, a commit scans as before if and only if it keeps its tag or every document comes out right of the replay on main's rows at the first version number |
| Store.CompactionFromRightBase | src/store/lance/commit.rs:870-1041 | if those rows are the first commit's, if and only if it keeps its tag or no document of it ever dropped a chunk |
| Store.HideDocuments | src/store/lance/commit.rs:870-882 | the first commit on a branch forked from an empty main, and main empty at its number, too: two unchanged commits show nothing afterwards |
| Store.CompactionKeepsAnchor | src/store/lance/commit.rs:826-1076 | after a compaction of an anchored dataset the next is safe, however it breaks ties, if and only if the second commit was replayed to a new version |
| Store.AnchoredIffSafe | src/store/lance/commit.rs:1043-1076 | anchored is the same as: no order of the commits by version starts on a rebuild branch |
| Store.RunsLoseNoCommit | src/store/lance/commit.rs:826-1076 | over any run of pushes, prunings, clean-ups, interrupted compactions and compactions that replay the second commit to a new version, with deletions failing or not, no commit is lost and every tag resolves |
| Store.RunsLoseDeletedOnly | src/store/lance/stats.rs:436-502 | with safe deletions of branch indices in between, a commit is lost only by deleting its own branch's index |
| Store.DeletionIsSafe | src/store/lance/stats.rs:436-488 | after deleting a branch's index no compaction can lose a commit if and only if none is left on a rebuild branch or one off them and off that branch is older than all of those |
| Store.CompactionAfterDeletion | src/store/lance/stats.rs:436-488 | when only rebuild tags are left, the next compaction loses exactly its first commit |
| Store.PruningKeepsSnapshots | src/store/lance/mod.rs:1076-1145 | pruning untagged versions changes no commit's snapshot |
| Store.CleanUpAfterInterruption | src/store/lance/commit.rs:108-138 | a process that dies in phase 1 leaves a branch that start-up clean-up removes: the dataset is what it was |
| Reservation.PushService.TryReserve | src/store/lance/commit.rs:62-98 | one uninterrupted call is the protocol's five steps: it reserves exactly a key not in flight whose domain and commit have no tag; then the push owns the key and no other does |
| Reservation.PushService.ReleaseReservation | src/store/lance/commit.rs:101-105 | after the release step no push owns the key, and what the push tagged stays tagged |
| Reservation.PushService.Serve | src/service/mod.rs:602-786 | a whole push leaves the in-flight set as it was, and its commit tagged iff it was accepted and finished or was tagged before |
| Reservation.ServeTwice | src/service/mod.rs:602-786 | after an accepted push of a commit a second one is accepted iff the first did not finish |
| Reservation.RunKeepsInv | src/service/mod.rs:602-786 | every interleaving of arrivals, checks, tags, failures and releases keeps the invariant |
| Reservation.OnePushPerKey | src/service/mod.rs:602-786 | at most one push per (domain, branch, commit) is between accept and release; the in-flight set is exactly their keys |
| Reservation.AcceptedOnlyUntagged | src/store/lance/commit.rs:62-98 | an accepted push's commit is untagged if and only if no push of another branch tagged it |
| Reservation.AcceptedIsUntagged | src/store/lance/commit.rs:62-98 | if no two arriving pushes name one commit on different branches, an accepted push's commit is untagged in every interleaving |
| Reservation.TaggedNeverAccepted | src/store/lance/commit.rs:62-98 | a commit tagged before the run is never accepted in it |
| Reservation.UninterruptedReserve | src/store/lance/commit.rs:62-98 | the protocol's five steps without interruption decide what one call of the method decides |
| Reservation.FailedCommitCanBeRetried | src/service/mod.rs:740-786 | a push that failed untagged and was released can be retried |
| Reservation.CrossBranchRace | src/store/lance/commit.rs:62-98 | for any two branches: a push is accepted although its commit has just been tagged from the other |
| Embedding.EmbedCache.Get | src/embed/cache.rs:141-160 | a hit is an entry of the asked length in an enabled cache |
| Embedding.AcceptedMeans | src/embed/mod.rs:232-345 | a reply is used exactly if it is a success with one vector of the right length per text; which error is reported otherwise |
| Embedding.AnsweredMeans | src/embed/mod.rs:84-110 | each role's text is sent behind that role's prefix |
| Embedding.Partition | src/embed/mod.rs:281-303 | hits fill their slots; the misses are exactly the others, in order |
| Embedding.Embed | src/embed/mod.rs:267-362 | one request naming exactly the uncached texts, or none; fails iff that request does; a success gives each text a possible answer of its own in order; afterwards all are cached and the cache holds possible answers only |
| Embedding.Provider.AllowedItsReplies | src/embed/mod.rs:305-362 | every provider is allowed the answers it gives, so nothing is assumed of it |
| Embedding.RetryIndividually | src/embed/mod.rs:416-443 | every text of a failed batch gets its own result: an answer of it, or an error of a request for it alone |
| Embedding.EmbedBatched | src/embed/mod.rs:383-447 | for every batch size, cache and failure pattern each text has one result in order, a possible one of embedding it alone |
| Pipeline.ScatterDoc | src/service/mod.rs:2280-2375 | one row per chunk in order: the document's id and type, the chunk's index, count, token start, token length and text, its document vector normalised as embedding and its clustering vector normalised as clustering; or the first failure in document and then clustering role |
| Pipeline.BatchMeans | src/service/mod.rs:2280-2375 | a document either counts, with a stored row for each chunk, or gives a single skip that names the error of one of its texts |
| Push.RowsAreStored | src/service/mod.rs:2342-2375 | every collected row is the stored row of a chunk of an inserted or changed text: its embedding is a normalised answer to the text behind the document prefix |
| Push.EveryOperationIsReported | src/service/mod.rs:2131-2381 | indexed and skipped add up to the inserted, changed and failing operations, and the skips are exactly the failing ones, the texts that gave no chunks and the documents whose embedding failed |
| Pipeline.EmbedDocs | src/service/mod.rs:2222-2381 | a list of documents gives one possible batch per document, in order, whatever the cache and the failures |
| Pipeline.GatheredJoin | src/service/mod.rs:2630-2828 | splitting a list of batches anywhere changes nothing of what they give |
| Pipeline.SameAnswersSameBatches | src/service/mod.rs:2222-2381 | providers that always answer a text the same way give every document the same batch every time |
| Push.CollectAll | src/service/mod.rs:2131-2381 | an abort is an error; otherwise rows, deletions, count and skips are those the operations contribute, given what each document's embedding gave, for any provider |
| Push.StreamRun.FlushMicrobatch | src/service/mod.rs:2630-2828 | the buffer's documents are added in order, one possible batch each, whatever the sub-batch size |
| Push.StreamRun.Collect | src/service/mod.rs:2830-2935 | for any provider and micro-batch size the stream collects the rows in order, the count, and the deletions and skips up to order that its documents' batches give; or reports the abort or the truncation with its counts |
| Push.PipelinesAgree | src/service/mod.rs:2830-2935 | with providers that always answer a text the same way that is what the whole list collects |
| Push.WaitingIsRemainder | src/service/mod.rs:2887-2895 | documents still buffered at the end are the remainder by the micro-batch size |
| Push.TruncationAlwaysCaught | src/service/mod.rs:2898-2927 | every stream that passes delivered what was declared if and only if no flushed document gave an id to delete |
| Push.TruncationCaughtForSure | src/service/mod.rs:2898-2927 | whatever the providers answer, if and only if no document of the full micro-batches is a Changed one |
| Push.ShortStreamsAreCounted | src/service/mod.rs:2903-2906 | a stream that never fills a micro-batch is counted right |
| Push.TruncatedStreamAccepted | src/service/mod.rs:2903-2906 | one micro-batch of Changed documents passes for twice as many |
| CommitWrite.Branch.DeleteThenAppend | src/store/lance/write.rs:98-154 | the head after each crash point; earlier versions never change |
| CommitWrite.Branch.Write | src/service/mod.rs:2937-3066 | the tag goes to the version right behind index building and before merging, with exactly the written rows; a crash leaves the commit untagged; a commit tagged before is an error, after its rows were written |
| CommitWrite.IndexedMeansRows | src/service/mod.rs:2944-2944 | the two pipelines' tests for work to write agree |
| CommitWrite.PushWhole | src/service/mod.rs:2131-2531 | for any provider: an abort changes nothing; the head each crash leaves; an existing tag is an error; the tagged version is the described push of the old head, and each row new in it is the stored row of a chunk the operations bring |
| CommitWrite.PushStream | src/service/mod.rs:2570-3066 | for any provider: an abort or a truncated stream changes nothing stored; otherwise head, error and tagged rows as for the whole-list push with those batches |
| CommitWrite.SamePush | src/service/mod.rs:2131-3066 | with providers that always answer a text the same way both pushes leave the same rows |
| CommitWrite.RepushAfterDelete | src/store/lance/write.rs:86-89 | a crash between delete and append, then the same operations again: the head of an undisturbed push if and only if the second run deletes again every document that lost rows; with the same batches it does |
| CommitWrite.RepushAfterAppend | src/store/lance/write.rs:90-94 | after a crash behind the append it does if and only if every appended document is also deleted by the push |
| CommitWrite.DocumentAfterPush | src/service/mod.rs:2937-2957 | a document mentioned once is removed, replaced whole, added or left alone, as its operation and its embedding say, with one stored row per chunk; unmentioned ones are left alone |
| Resolve.EdgeKeysMeet | src/resolve/mod.rs:274-276 | different set ids share a joined key if and only if one is the other with a colon, or goes on with two |
| Resolve.EdgeKeysDiffer | src/resolve/mod.rs:274-276 | so joined keys tell pairs apart when set ids contain no double colon and end in no colon |
| Resolve.EdgeKeysCollide | src/resolve/mod.rs:274-276 | two different pairs with one key |
| Resolve.BuildCandidateGraph | src/resolve/mod.rs:212-272 | the graph has exactly the pairs within the cap, at the least distance either list reports, whatever the order |
| Resolve.BestTargets | src/resolve/mod.rs:281-320 | per set record the nearest mutual edge, ties by target id, whatever the order |
| Resolve.GroundCore | src/resolve/mod.rs:281-324 | one match per set record that has a mutual edge within tau: its nearest |
| Resolve.Extras | src/resolve/mod.rs:328-415 | exactly the edges within tau that this direction lists and the core lacks |
| Resolve.DedupMatches | src/resolve/mod.rs:421-466 | every pair once, at its best stage and there at its least distance |
| Resolve.MaxActiveTau | src/resolve/mod.rs:195-208 | the loosest of the active thresholds |
| Resolve.MatchPairs | src/resolve/mod.rs:119-142 | the matches are exactly the described ones, each pair once, for any graph cap at or above the active thresholds |
| Resolve.Resolve | src/resolve/mod.rs:119-192 | a match has the least distance the first k entries of the two lists report; a core match is its set record's nearest target within tau that lists it back, ties by target id, and exists if there is one; extras are the other pairs one record lists within its tau; set_only and target_only are exactly the unmatched keys; counts are exact |
| Resolve.CoreIsNearest | src/resolve/mod.rs:281-320 | no mutual target reported within tau is nearer than the core match, nor as near with a smaller id |
| Resolve.QualifiedIsMatched | src/resolve/mod.rs:281-415 | every pair that qualifies for a stage is matched there or better |
| Resolve.OneCorePerSet | src/resolve/mod.rs:278-281 | a set record has at most one core match |
| Resolve.CoreExists | src/resolve/mod.rs:278-281 | a set record with a mutual pair within tau has one |
| TopK.DistanceIsLeast | src/store/lance/resolve.rs:464-484 | a document's distance is that of its nearest in-threshold chunk; the chunk's own document has none |
| TopK.FlatKnnTopK | src/store/lance/resolve.rs:452-496 | at most k documents, nearest first, each at the distance of one of its candidates; a document within the threshold is listed at most that far, or k documents as near are |
| TopK.MergeNeighbours | src/store/lance/resolve.rs:674-687 | a document is listed once, at the lesser distance; the old entries keep their places and the new ones follow in order |
| TopK.CollectTopK | src/store/lance/resolve.rs:309-361 | each document's list names its neighbours once, in the order of their first report, at the least distance over its chunks' lists |
| TopK.CrossNeighbours | src/store/lance/resolve.rs:309-361 | said of chunks and candidates: every listed distance is one of a chunk and a candidate within the threshold; a document with fewer than k others as near is listed no farther than its nearest; each neighbour once; for a one-chunk document those are among the first k |
| TopK.NeverTooNear | src/store/lance/resolve.rs:309-361 | no reported distance is below the overall one |
| TopK.NearestAreKept | src/store/lance/resolve.rs:309-361 | every in-threshold document with fewer than k others at least as near is reported at its exact overall distance |
| TopK.ReadIffReportedEarly | src/resolve/mod.rs:223-226 | resolution reads a neighbour if and only if fewer than k distinct documents were reported before it |
| TopK.FewReportsAreRead | src/resolve/mod.rs:223-226 | where at most k documents are reported, all are read |
| TopK.OneChunkReadsNearest | src/resolve/mod.rs:223-226 | for a document of one chunk every neighbour with fewer than k others at least as near is read |
| TopK.NearerNeighbourUnread | src/resolve/mod.rs:223-226 | a search with k = 1 over two chunks whose nearer neighbour is found and not read |
| Duplicates.BestPerPair | src/store/lance/dedup.rs:44-60 | every in-threshold pair once, by its nearest observation |
| Duplicates.PairsFromNeighbours | src/store/lance/dedup.rs:37-81 | distances never decrease, ties by lower and then higher id; each group has a distance and the texts of its pair's first observation at that distance; a kept observation's pair is listed no farther, or the cap is filled by groups as near |
| Duplicates.GroupsDependOnObserved | src/store/lance/dedup.rs:28-31 | ids and distances depend only on which pairs were seen at which distances |
| Duplicates.ObservedIgnoresOrder | src/store/lance/dedup.rs:25-27 | neither the order of observations nor which document came first matters |
| Duplicates.OrientationIsIrrelevant | src/store/lance/dedup.rs:260-276 | swapping an observation's documents gives the same canonical observation |
| Fusion.Absorb | src/store/lance/dedup.rs:157-179 | after a leg every document has the slot of its first hit, ranked by the distinct documents before it |
| Fusion.RankCountsDocuments | src/store/lance/dedup.rs:127-130 | a rank is the number of distinct documents before the first hit |
| Fusion.RanksDiffer | src/store/lance/dedup.rs:127-130 | no two documents of a leg share a rank |
| Fusion.LaterChunksDoNotMatter | src/store/lance/dedup.rs:127-130 | dropping a later chunk of a document changes no slot of the leg |
| Fusion.FanOutCannotBuyRank | src/store/lance/dedup.rs:143-207 | nor anything in the fused result, for the vector leg |
| Fusion.FanOutCannotBuyTextRank | src/store/lance/dedup.rs:143-207 | nor for the text leg |
| Fusion.FusedDistanceRange | src/store/lance/dedup.rs:229-238 | a fused distance is in [0, 1) and 0 exactly for a document first in both legs |
| Fusion.OneDocumentAtZero | src/store/lance/dedup.rs:229-238 | at most one document is at distance 0 |
| Fusion.RrfFuseDocuments | src/store/lance/dedup.rs:143-207 | every document of either leg once, best score first, then by id; the score sums 1 / (61 + rank) over the legs, a rank is the number of distinct documents before the first hit, the vector leg's chunk is shown if there is one, distances never decrease |
| IndexRecovery.DatasetDir.Recover | src/store/lance/mod.rs:340-386 | moves stranded entries back; a completed recovery leaves no backup if and only if no name was in both directories |
| IndexRecovery.DatasetDir.HideCleanRestore | src/store/lance/mod.rs:1103-1145 | wherever it dies, every hidden and recreated entry is in one of the two directories; it finishes exactly from the stated number of steps; a backup with entries makes hiding fail and changes nothing |
| IndexRecovery.DatasetDir.CrashAndRecover | src/store/lance/mod.rs:340-386 | from any state of the two directories, after a crash anywhere and any number of crashed recoveries, a completed one leaves all entries in place and no backup |
| HandleCache.Cache.EvictLruIfOver | src/store/lance/mod.rs:399-414 | what is left are the most recent entries up to the limit |
| HandleCache.Cache.OldestEntry | src/store/lance/mod.rs:399-414 | the entry with the least stamp, in any order |
| HandleCache.Cache.InsertCached | src/store/lance/mod.rs:417-432 | the inserted domain is kept and most recent; an earlier opener's handle wins |
| HandleCache.Cache.ReplaceCached | src/store/lance/mod.rs:435-460 | the handle is replaced and the domain is most recent |
| HandleCache.Cache.Open | src/store/lance/mod.rs:619-658 | a hit returns the cached handle and makes it most recent; a miss inserts the one opened |
| HandleCache.Cache.AccessAll | src/store/lance/mod.rs:389-460 | after any mix of opens and replacements a domain is cached exactly if fewer than max distinct domains were accessed since its last access, each with its latest handle |
| HandleCache.BoundedIsPrefix | src/store/lance/mod.rs:389-460 | the bounded list is the first entries of the unbounded recency list |
| HandleCache.RecencyRank | src/store/lance/mod.rs:389-460 | a domain's place is the number of distinct domains accessed since |
| CommitTag.EncodeCommitTag | src/layeridx/mod.rs:38-52 | the tag is `c_` and one piece per byte in order: letters, digits and underscore as they are, a dash doubled, any other byte a dash and its two lower-case hex digits |
| CommitTag.DecodeCommitTag | src/layeridx/mod.rs:58-107 | reads the tag item by item; returns the bytes read, or what is wrong with the item at which position, or that they are not UTF-8 |
| CommitTag.RoundTrip | src/layeridx/mod.rs:38-107 | decoding an encoded commit returns it |
| CommitTag.EncodingIsInjective | src/layeridx/mod.rs:38-52 | different commits get different tags |
| CommitTag.TagAlphabet | src/layeridx/mod.rs:38-52 | a whole tag is non-empty and uses only letters, digits, underscore and dash |
| CommitTag.DecodingHasAliases | src/layeridx/mod.rs:58-107 | different tags that decode to the same commit |
| CommitTag.EncodingsAreCanonical | src/layeridx/mod.rs:38-107 | a tag that decodes is its commit's encoding if and only if raw bytes are alphanumeric or underscore and escapes are `--` or lower-case hex of a byte that needs one |
| Utf8.CutAtBoundary | src/chunk/mod.rs:140-159 | valid text cut at a character boundary is valid on both sides |
| Chunks.WindowBoundaries | src/chunk/mod.rs:85-104 | window count, starts and ends for a document longer than a window |
| Chunks.WindowsCoverTokens | src/chunk/mod.rs:85-104 | every token is in a window |
| Chunks.WindowsReachEnd | src/chunk/mod.rs:85-104 | the last window, and no other, reaches the end of the document |
| Chunks.WindowSizes | src/chunk/mod.rs:85-104 | a window holds at most max_tokens, and neighbours overlap by exactly the configured amount when it fits |
| Chunks.SnapDown | src/chunk/mod.rs:140-149 | the nearest boundary at or below |
| Chunks.SnapUp | src/chunk/mod.rs:151-159 | the nearest boundary at or above |
| Chunks.ChunkText | src/chunk/mod.rs:57-137 | invalid parameters, tokenizer errors, a slice whose offsets go back, one chunk, or the chunk of every window, each exactly when; chunk i starts at token i times the step and is the text from the last character boundary at or before its first token to the first one at or after the end of its last |
| Chunks.MonotoneGoesOn | src/chunk/mod.rs:106-137 | offsets that never go back make no slice go back |
| Chunks.EveryTokenIsInAChunk | src/chunk/mod.rs:57-137 | for every token some chunk of the result contains its bytes |
| Chunks.AllChunksAreValidText | src/chunk/mod.rs:57-137 | every chunk of the result is valid text if the document is |
| Chunks.ChunksAreValidText | src/chunk/mod.rs:106-137 | chunks of valid text are valid text |
| Chunks.ChunksContainTokens | src/chunk/mod.rs:106-137 | a chunk contains the bytes of every token of its window |

## Left out

- Lance, Arrow and DataFusion internals, sled, zstd, SHA-256 and the tokenizer: maps and functions with the contracts stated above.
- HTTP handlers, authentication, configuration, metrics, progress messages and command line.
- f32 rounding, NaN and infinity, and vector normalisation itself: reals, and an abstract function.
- u32, u64, usize and i32 widths: unbounded numbers.
- Cancellation and lock timeouts: timing only.
- A crash inside the delete/create pair of a moved tag: neither retagging is safe there.
- `/assign`, last-indexed derivation and its cache: they compare versions across branches after a compaction.
- Tags that a domain deletion or a compaction removes while pushes run: the reservation machine only adds tags.
- Task records and their eviction, empty and stale index directory pruning, the live-index set of the integrity check, nearest-layer lookup, and chunk-to-document dedup of plain search: easy next to what is here.
- The approximate-neighbour path of entity resolution and its scans: only the exact path is modelled.
- Store.Dataset.RetagWithDeltaForks: the name of the new rebuild branch is assumed unused, and moving a tag to succeed; the pruning behind it is the separate step `Store.Pruned`, which does not say which untagged versions go.
- Store.Dataset.ApplyDelta: rows are compared by document, chunk index and content, as the source's scan does; storage order within a version is not modelled.
- Embedding.Embed: a model name with a dimension is taken to determine the possible answers.
- Boundaries.TagTable.RetagToBoundaries: a table of one branch's tags; the source lists the tags of all branches and recreates the moved ones on main.
- Reservation.OnePushPerKey: deleting a domain or a branch's index also purges in-flight keys, and a push that reserved before and still waits for the pipeline lock then no longer excludes another; the machine has no such event.
- Embedding.EmbedCache.Get: the hashed key is the pair of model name and prefixed text, which takes model names without a line break.
- Pipeline.ScatterDoc: the branches after the failure check that the source marks as internal errors cannot be taken and are not written out.
- CommitWrite.Branch.Write: index building and merging add versions with the same rows; which segments they leave is in `Rollup`.
- Resolve.BuildCandidateGraph: edges are keyed by the pair, not by the joined string; `Resolve.EdgeKeysDiffer` says when that is the same.
- Rollup.IndexStack.IndexedPush: one index with one append per counted push; the full-text segments that uncounted pushes append, and the sum over all indices that the source reports, are not modelled.
- Chunks.ChunkText: one offset pair per token; the tokenizer's own offsets are a parameter.
- HandleCache.Cache.Open: the handle found on disk is a parameter; concurrent openers are the two cases of `InsertCached`.
