# riot-proxy, modelled and proved in Dafny

riot-proxy is a caching proxy for Riot's API with an archive of match bodies and
analytics over them. This project models five parts of it and proves what they
promise, for every input, run or reachable state:

1. **Incremental analytics** (`tables`, `aggregates`, `ladder`, `ladder_steps`,
   `ladder_runs`, `staging`, `draining`, `delta`, `reads`). One ladder's tables are
   kept up to date by batches that count new matches, take back counts at tiers that
   have moved since, and add them again. The tables always are what a rebuild of the
   counted facts would write.
2. **Bodies moved out of SQLite, and the map recovered** (`pack`, `index_codec`,
   `archive`, `offload`, `recovery`, `snapshot`, `bucket_listing`, `restore_runs`,
   `recovery_runs`). Bodies are packed into objects, recorded and
   freed, with crashes and concurrent writes at any point. No read answers wrong bytes,
   space is accounted for exactly, and the map of locations can be rebuilt.
3. **The purge's glob** (`glob`). A loop that backtracks to the last star only agrees
   with the recursive matcher it replaced, within a stated number of rounds.
4. **The job claim** (`claim`). One head per lane stands in for the best of all jobs.
5. **Two concurrency protocols** (`singleflight`, `pool`), under any interleaving with
   cancellations and panics.

`sums` and `wrappers` hold finite sums over sets and `Option`. `dafny verify
dfyconfig.toml` checks everything.

How things are represented:

- Every summed column of an analytics row is a sum over a set of *units*: a player, a
  match, a match at a tier, or a pair of laners. `COUNT DISTINCT` is then the size of a
  set, and statements about tables become statements about sets.
- Transactions are functions from state to state. Where the program changes state in
  place (`Delta.AnalyticsStore`, `Archive.ArchiveStore`, `Claim.Queue`,
  `SingleFlight.Flights`, `Pool.ReaderPool`) a class has the same fields, and its
  methods are proved against those functions. Concurrency is a state machine whose
  events happen in any order.
- SHA-256 is collision-free: a digest determines its bytes. zstd and JSON lines are a
  codec whose decoder undoes its encoder and may refuse anything else;
  `IndexCodec.CodecExists` shows one. ULIDs, match ids and job ids are natural numbers in
  their text order.

What is assumed of the surroundings, always as a stated hypothesis:

- A ladder's clock does not run backwards, and a counted match of the current facts
  version is archived again only with the same facts (`LadderRuns.Enabled`), as
  `src/archive/matches.rs:1-3` says.
- A body under way to a pack is archived again only with the bytes it had
  (`Offload.Enabled`). `Offload.RecordSafe` shows that this is exactly what is needed,
  and `Offload.StaleRecord` what happens without it.
- A pack's index is shorter than 2^64 bytes (`Pack.Fits`), as anything in memory is.
- For a full reindex to make every body readable again, the store keeps what it is sent
  and a body's bytes do not change (`RecoveryRuns.Honest`).

Where the code and its documentation, or the promise one would expect, differ:

- The single-flight module frees a slot when the work's task ends, so a call made after
  the work has ended but before its `Release` has dropped still joins it
  (`SingleFlight.JoinedAfterTheEnd`). The exact boundary is the release
  (`SingleFlight.JoinsWhatIsHeld`, `SingleFlight.NeverJoinedLate`).
- `replace_tables` marks every located body packed, also one archived since with other
  bytes and waiting to be packed again (`Snapshot.LoadStale`);
  `Snapshot.LoadKeepsReadsIff` says, from the rows and the two maps alone, when loading a
  map keeps reads right.
- A restore does not always give back the running map. Packs of one offload run share
  their millisecond, so they are recorded in random id order, and a snapshot taken between
  two of them makes the restore skip the one with the lesser id
  (`Recovery.SkippedPack`). A pack uploaded but never recorded is picked up instead.
  A pack recorded since that can no longer be read is missing from it.
  `Recovery.RestoreMatchesIff` is the exact condition, for every list of packs, every
  snapshot and every listing of distinct packs, readable or not, in which a recorded
  pack newer than the snapshot that reads, reads as it was recorded.
  `Snapshot.RestoreFromAnyDay` and `RestoreRuns.RestoreGivesBack` carry it to snapshots
  and to runs with damage; for a run without damage the two hypotheses on the listing hold
  of themselves (`RestoreRuns.UndamagedRestore`).
- Migration V0029 describes `stamped_at` as when a rebuild started; the code stores when
  it was marked stamped. The code is followed.
- The delta follows `src/archive/analytics/delta.rs`. The prototype in
  `scripts/thr03-synthetic.py` deletes rows that reach zero rather than zero or less,
  which is the same (`LadderSteps.NeverBelowZero`), and takes waiting matches before
  retracted ones, which for batches of `delta.rs` is the same (`Draining.AnyDivision`).

## Model

| member | source | states |
|---|---|---|
| `Tables.KeysAreGroups` | src/archive/analytics.rs:321-383 | the keys enumerated from facts are exactly the non-empty groups of the step's GROUP BY |
| `Tables.CountColumn` | src/archive/analytics.rs:321-383 | a row's first column is the number of its distinct units, and is positive exactly where the step writes a row |
| `Aggregates.DuelsSplit` | src/archive/analytics.rs:491-517 | one-on-one lanes, with their head counts over every laned fact, split over sets of facts with no match in common |
| `Aggregates.AggAdditive` | src/archive/analytics.rs:321-383 | every column of every group (distinct matches, bans once per match, floors, lanes) is additive over facts with no match in common |
| `Aggregates.AggReplace` | scripts/thr03-synthetic.py:430-462 | replacing some matches' facts changes a column by what the new ones count less what the old ones did |
| `Aggregates.AggByMatch` | src/archive/analytics.rs:321-383 | a column over any facts is the sum of the column over each match alone |
| `Aggregates.QueryAdditive` | src/archive/analytics.rs:283-309 | a rebuild of a disjoint union of matches is the pointwise sum of the parts' rebuilds, with the union of their rows |
| `Aggregates.PatchLocal` | src/archive/analytics.rs:283-309 | a group's columns depend only on the facts of its patch, so a rebuild of some patches can leave the others |
| `Aggregates.SpreadCounts` | src/archive/analytics.rs:407-447 | counting matches per top rank and spreading downward counts, per floor, the matches whose top rank reaches it |
| `Aggregates.FloorsAreDirect` | src/archive/analytics.rs:400-447 | the floor rows built through top ranks equal the direct count of distinct matches (banning the champion) with some player at or above the floor |
| `Aggregates.TierShare` | src/archive/analytics.rs:265-278 | the part of a totals row counted at one tier is that tier's stats row, in every column |
| `Aggregates.TotalsAreUntiered` | src/archive/analytics.rs:265-278 | stats rows summed over tier are the totals row counted directly, a match once per tier in `matches_picked` |
| `Aggregates.TotalsComplete` | src/archive/analytics.rs:265-278 | the selected rows and `totals_from` of them are the whole of the champion step's tables |
| `Ladder.PartIsQuery` | src/archive/analytics.rs:283-309 | a table that agrees cell by cell, and has a row exactly where something is counted, is the rebuild's |
| `LadderSteps.BatchNet` | src/archive/analytics/delta.rs:389-557 | a batch's additions less what it takes back are exactly the change in every column of what the step has counted |
| `LadderSteps.SurvivesIffPositive` | src/archive/analytics/delta.rs:522-531 | after a batch a row is in the table exactly when its count is positive |
| `LadderSteps.BatchKeeps` | src/archive/analytics/delta.rs:389-557 | a batch keeps every step's tables equal to a rebuild of what it has counted, also when one row's change mixes taking back and adding |
| `LadderSteps.NoEmptyRows` | src/archive/analytics/delta.rs:522-531 | no row of a right table counts zero or less |
| `LadderSteps.NeverBelowZero` | scripts/thr03-synthetic.py:456-466 | a merged count is never negative, so deleting rows that reach zero deletes those at or below it |
| `LadderSteps.ScopeCell` | src/archive/analytics.rs:283-309 | after rebuilding some patches, a group counts the facts now inside them and what was counted before outside |
| `LadderSteps.ScopedIsSlice` | src/archive/analytics.rs:283-309 | what a rebuild of some patches counts is that part of what a full rebuild would |
| `LadderSteps.FullRebuildFixes` | src/archive/analytics.rs:283-309 | rebuilding a step over every patch makes its tables right, whatever they held |
| `LadderSteps.ScopedRebuildKeeps` | src/archive/analytics.rs:283-309 | rebuilding some patches of a step keeps its tables right |
| `LadderSteps.RebuildKeepsOthers` | src/archive/analytics/delta.rs:67-96 | a rebuild of one step leaves the other steps' tables and what they count alone |
| `LadderRuns.TierKeepsTier` | src/db/migrations/V0029__analytics_counted.sql:38-51 | the trigger keeps the tier a step counted a player at, however often the tier moves |
| `LadderRuns.TierKeepsStep` | src/archive/tiers.rs:65-91 | moving a tier changes nothing a step has counted |
| `LadderRuns.FactsKeepStep` | src/archive/analytics/delta.rs:102-117 | archiving a match no step has counted, or again with the same facts, keeps every step right |
| `LadderRuns.BuildsKeepOthers` | src/archive/analytics/delta.rs:125-146 | set builds change no other step's counts |
| `LadderRuns.BuildsKeepSets` | src/archive/analytics/delta.rs:125-146 | a match's first set builds clear the set-build count without changing what the step's tables hold |
| `LadderRuns.RunFinishKeepsInv` | src/archive/analytics/delta.rs:182-198 | a full rebuild may mark the ladder stamped exactly because every step it rebuilt stayed right or the ladder was made dirty after it began |
| `LadderRuns.NextKeepsInv` | src/archive/analytics/delta.rs:98-211 | every write, tier move, batch, partial or full rebuild, overlapping in any way, keeps the ladder's invariant |
| `LadderRuns.EveryRunIsConsistent` | src/archive/analytics/delta.rs:1-21 | after every run from the migration's state, whenever deltas may run, each step's tables are the rebuild of its counted facts at the tiers it counted them, no row counts zero or less, and once drained no rebuild of any step over any patches changes anything |
| `LadderRuns.DrainedIsRebuilt` | scripts/thr03-synthetic.py:331-358 | with nothing pending and nothing to take back, rebuilding a step over every patch or some changes nothing |
| `Staging.StageStep` | src/archive/analytics/delta.rs:450-484 | one step of a batch that takes counts back stages exactly that step's net change |
| `Staging.UpsertStep` | src/archive/analytics/delta.rs:562-629 | one step of a batch that only adds upserts its rows at once, all but the stats, which it stages |
| `Staging.StagedTotalIsNet` | src/archive/analytics/delta.rs:485-493 | staged stats of either sign summed over tier are the net change of the totals row |
| `Staging.TotalTouched` | src/archive/analytics/delta.rs:485-493 | a totals row is touched exactly when one of its stats rows is |
| `Staging.MergeIsBatch` | src/archive/analytics/delta.rs:495-533 | merging the staging copies and deleting the rows they emptied gives the batch's tables, in both of a batch's modes |
| `Draining.StartSize` | src/jobs/analytics.rs:310-317 | a run's first batch is within the floor and the cap |
| `Draining.NextSize` | src/archive/analytics/delta.rs:42-52 | the next batch stays within the floor and the cap and at most doubles, whatever time was measured |
| `Draining.OnTargetStays` | src/archive/analytics/delta.rs:36-52 | a batch that took the target time keeps its size |
| `Draining.SlowerIsNoLarger` | src/archive/analytics/delta.rs:36-52 | a slower batch is never followed by a larger one than a faster batch would be |
| `Draining.BatchesCompose` | src/archive/analytics/delta.rs:384-389 | counting one batch and then another is counting them together: nothing twice, nothing lost |
| `Draining.AnyDivision` | scripts/thr03-synthetic.py:411-472 | the final ladder does not depend on how matches are divided into batches, nor on their sizes or order |
| `Draining.BatchOutstanding` | src/archive/analytics/delta.rs:534-546 | a batch leaves outstanding exactly what it did not take |
| `Draining.SettledIsRebuilt` | src/archive/analytics/delta.rs:19-20 | once a ladder's outstanding matches are counted, its tables are a full rebuild's and rebuilding any step, over any patches, changes nothing |
| `Delta.Select` | src/archive/analytics.rs:321-447 | running a step's statements, the floors through top ranks, gives the step's selected rows |
| `Delta.Totals` | src/archive/analytics.rs:265-278 | `totals_from` over a table sums its stats rows over tier |
| `Delta.RebuildTables` | src/archive/analytics.rs:283-309 | clearing, selecting and totalling from the rows just written give the step's rebuild for the scope, the rest kept |
| `Delta.MergedTables` | src/archive/analytics/delta.rs:448-531 | the batch's statements, step by step through staging and merge, give its tables |
| `Delta.UpsertFacts` | src/archive/facts.rs:329-375 | facts are upserted with their tier stamp kept, and a player no longer in the body loses their row |
| `Delta.Remember` | src/db/migrations/V0029__analytics_counted.sql:41-51 | the trigger inserts a row per counting step and keeps the first tier seen |
| `Delta.FirstIds` | src/archive/analytics/delta.rs:235-299 | the least ids of a set, in order, up to a limit |
| `Delta.NextIds` | src/jobs/analytics.rs:868-893 | one batch's matches: outstanding, none twice, none only when nothing is left, and none waiting skipped up to the new cursor |
| `Delta.AnalyticsStore.ArchiveFacts` | src/archive/matches.rs:137-169 | writing a match's facts in place is the ladder's transition, with the version bump and the dirty mark |
| `Delta.AnalyticsStore.StampTier` | src/archive/tiers.rs:51-91 | a tier update in place, with its trigger, is the ladder's transition |
| `Delta.AnalyticsStore.ArchiveBuilds` | src/archive/builds.rs:382-418 | writing set builds in place is the ladder's transition, first rows and replaced ones |
| `Delta.AnalyticsStore.Rebuild` | src/archive/analytics.rs:283-309 | rebuilding a step in place is the ladder's transition |
| `Delta.AnalyticsStore.FinishRebuild` | src/archive/analytics/delta.rs:182-198 | marking stamped in place is the ladder's transition |
| `Delta.AnalyticsStore.CountBatch` | src/archive/analytics/delta.rs:389-557 | a batch in place: nothing unless ready, rolled back for a match without its row, else the ladder's transition and its two counts |
| `Delta.AnalyticsStore.Drain` | src/jobs/analytics.rs:857-950 | the run of batches ends, in at most one batch per outstanding match, with nothing outstanding and the ladder as if all had been counted in one batch, whatever sizes the measured times give |
| `Reads.RangeIsByRank` | src/riot/ladder.rs:38-42 | a tier range is the tiers of at least the floor's rank; an unknown floor names none |
| `Reads.ReadDomain` | src/archive/analytics.rs:956-979 | the domain read row by row is the set of platforms, tiers and patches of the slices asked for |
| `Reads.RowHasSlice` | src/archive/analytics.rs:944-948 | every row of the champion tables has a slice of its tier and patch |
| `Reads.DrainedRowHasSlice` | src/archive/analytics.rs:944-948 | in a drained ladder every row of every table does |
| `Reads.PassesIsWanted` | src/archive/analytics.rs:1128-1182 | for every table, writing an open filter as an `IN` over the domain drops no row the read asks for and lets in no other; the one over the lanes drops exactly the set builds against an opponent in a role that is no lane |
| `Reads.TotalIsSum` | src/archive/analytics.rs:1104-1114 | in a right table a totals row is the sum of its tiers' stats rows, and is there exactly when one of them is |
| `Reads.AnswerIsPlainSum` | src/archive/analytics.rs:1252-1293 | every stats read, through totals or not, in two levels or one, by tier or over a range, answers the plain sum of the stats rows it asks for, and has something to sum exactly when they do |
| `Reads.SameRowsComeBack` | src/archive/analytics.rs:1274-1293 | the rows that come back with games enough, and all their columns, are those of the plain sum |
| `Pack.LengthRoundTrip` | src/archive/pack.rs:183 | the trailer's little-endian length reads back as written |
| `Pack.FindRepeat` | src/archive/pack.rs:148-150 | the first repeated neighbour of the sorted bodies is the least repeated id, and none is found exactly when ids are distinct |
| `Pack.Build` | src/archive/pack.rs:143-192 | a pack is built exactly from a non-empty list of distinct ids with non-empty bodies; otherwise the error names the least offending id |
| `Pack.IndexRange` | src/archive/pack.rs:197-213 | an accepted trailer gives a range that ends at the trailer |
| `Pack.ParseIndex` | src/archive/pack.rs:218-262 | an index is accepted exactly when each entry is of the kind, inside the bodies, after and clear of the one before, and then as it stands |
| `Pack.GoodIndexOrder` | src/archive/pack.rs:215-217 | any two entries of an accepted index are strictly ordered and do not overlap |
| `Pack.Read` | src/archive/pack.rs:266-274 | whatever bytes are read as a pack, its entries are a good index of a body region before the trailer |
| `Pack.Verify` | src/archive/pack.rs:277-282 | true exactly when every entry's bytes are there and match its digest |
| `Pack.PackReadsBack` | src/archive/pack.rs:143-282 | every pack built reads back as its entries, which tile the body region in id order, slice out the bodies that went in, and verify |
| `IndexCodec.CodecExists` | src/archive/pack.rs:7-11 | a concrete index codec meets what the pack results ask of one, with an index that fits |
| `Archive.LocateAllAt` | src/archive/pack.rs:318-354 | locating an index points each listed body at the pack and marks its row packed, and changes no other body |
| `Archive.LocatedUpdate` | src/archive/pack.rs:326-338 | writing one location moves its bytes out of one pack's total and into another's |
| `Archive.LocateAllSlack` | src/archive/pack.rs:313-354 | locating an index leaves every other pack's live bytes as exact as they were |
| `Archive.RecordKeepsLive` | src/archive/pack.rs:287-311 | recording a pack keeps every pack's live bytes the sum of the bodies located in it |
| `Archive.LiveNotNegative` | src/archive/pack.rs:287-354 | exact live bytes are never negative |
| `Archive.ArchiveStore.Put` | src/archive/matches.rs:367-436 | archiving in place keeps a row packed exactly for the same bytes, and reports the bytes now waiting |
| `Archive.ArchiveStore.Locate` | src/archive/pack.rs:318-354 | the loop over entries is the transition entry by entry |
| `Archive.ArchiveStore.Record` | src/archive/pack.rs:287-311 | recording in place is the transition, refused for a pack recorded before |
| `Archive.ArchiveStore.Free` | src/archive/offload.rs:147-174 | freeing in place drops only packed and located copies, and counts each once |
| `Archive.ArchiveStore.Get` | src/archive/matches.rs:235-335 | the local copy, else the located range if its digest agrees, else nothing |
| `Offload.RecordSafe` | src/archive/offload.rs:49-87 | recording a pack keeps the read guarantee exactly when every body in it is still the one last archived |
| `Offload.StaleRecord` | src/archive/offload.rs:56-81 | otherwise the guarantee is lost: for any two different bodies, the record, a free and a read answer the earlier one |
| `Offload.ArchivedKeeps` | src/archive/matches.rs:428-436 | archiving, also of a freed or a packed body, keeps the guarantee |
| `Offload.RecordedFetches` | src/archive/offload.rs:95-118 | a body recorded from a pack checked against its digest can be fetched from it |
| `Offload.NextKeepsInv` | src/archive/offload.rs:1-10 | every step of every offload, put, free and crash keeps rows, locations, live bytes and packs under way in order |
| `Offload.NextKeepsIntact` | src/archive/offload.rs:95-118 | no step but damage makes a located body unreadable |
| `Offload.ReadOk` | src/archive/matches.rs:232-327 | in such a state a read answers the latest bytes or nothing, and answers them if the bucket is intact |
| `Offload.EveryRunReads` | src/archive/offload.rs:1-10 | after every interleaving of puts, packing phases, frees, crashes and damage no read answers other bytes than the last archived; undamaged, every archived body is answered; live bytes are exact |
| `Recovery.ReindexAllAt` | src/archive/recovery.rs:495-576 | after a reindex each body is where the last pack that lists it says, its row packed; bodies no pack lists stay |
| `Recovery.GreatestListing` | src/archive/recovery.rs:520-522 | in id order, that is the greatest pack that lists it |
| `Recovery.ReindexKeepsLive` | src/archive/recovery.rs:542-568 | each reindex transaction leaves every pack's live bytes exact, even of a pack that lists a body twice |
| `Recovery.ReindexIdempotent` | src/archive/recovery.rs:495-501 | reindexing again changes nothing, though its transactions move bodies back and forth |
| `Recovery.RecordIsReindex` | src/archive/recovery.rs:542-568 | recording a new pack and reindexing it do the same |
| `Recovery.RecordsAreReindex` | src/archive/recovery.rs:495-576 | the running tables are a reindex of the packs in the order they were recorded |
| `Recovery.ToReindexIs` | src/archive/recovery.rs:502-522 | however the bucket lists its packs, a reindex takes the readable ones after `since`, all of them, in id order |
| `Recovery.RestoreMatchesIff` | src/archive/recovery.rs:597-622 | a map of any earlier moment loaded and the packs after its newest reindexed give the running tables exactly when every pack recorded since can be read, every readable newer pack was recorded, every pack recorded since is newer than all before, and each body's last such pack is its greatest, whatever has become of the packs before; so, without the third, for a full reindex of empty tables |
| `Recovery.InOrderIsEnough` | src/archive/recovery.rs:12-15 | packs recorded in id order meet the last two |
| `Recovery.SkippedPack` | src/archive/offload.rs:49-87 | two packs of one millisecond recorded with the lesser id second, and a snapshot between: the restore never reads the second |
| `Recovery.Reindex` | src/archive/recovery.rs:502-576 | the loop over listed packs is the reindex of those after `since` in id order, and reports those it could not read |
| `Snapshot.LoadSnapshot` | src/archive/recovery.rs:336-390 | a snapshot loads exactly when no pack is listed twice, each location is a range in a listed pack of its kind, and each pack's live bytes are the sum of its locations |
| `Snapshot.ExportIsGood` | src/archive/recovery.rs:211-271 | a snapshot of an archive with exact live bytes loads |
| `Snapshot.CutShortIsRefused` | src/archive/recovery.rs:370-385 | a locations object cut short after any line is refused |
| `Snapshot.TornPairIsRefused` | src/archive/recovery.rs:252-265 | a pair of objects from two days with packs recorded in between is refused, whichever half is newer |
| `Snapshot.SnapshotRoundTrip` | src/archive/recovery.rs:394-447 | loading a snapshot gives back both tables it was taken of |
| `Snapshot.LoadKeepsLive` | src/archive/recovery.rs:372-385 | any snapshot that loads leaves every pack's live bytes exact |
| `Snapshot.RecordKeepsKinds` | src/archive/pack.rs:287-311 | recording keeps every body located in a pack of its kind with at least a byte |
| `Snapshot.LoadKeepsReadsIff` | src/archive/recovery.rs:429-441 | loading a map keeps reads right exactly when it locates local bodies by the digest of the bytes held and freed ones by the digest they had |
| `Snapshot.LoadStale` | src/archive/recovery.rs:429-441 | a body archived again and not packed yet does not fit: the archive's own map loaded, it is freed and reads as before |
| `Snapshot.RestoreFromAnyDay` | src/archive/recovery.rs:597-622 | whichever day's snapshot a restore falls back to, it loads, and gives the running tables under exactly the same condition |
| `Snapshot.RestoreIndex` | src/archive/recovery.rs:597-622 | the newest snapshot that passes its checks is loaded and the later packs reindexed, else every pack is; a body listed twice changes nothing |
| `BucketListing.StoredPackReads` | src/archive/recovery.rs:471-493 | an object stored as a pack was built reads back as that pack's size, digest and entries |
| `RestoreRuns.TablesAreRecords` | src/archive/offload.rs:76-83 | the tables of an offload run are its recorded packs', one after another |
| `RestoreRuns.RecordsAreStored` | src/archive/offload.rs:88-118 | every pack an undamaged run records is still stored, as it was built |
| `RestoreRuns.RestoreGivesBack` | src/archive/recovery.rs:597-622 | a snapshot anywhere in a run, with objects damaged or lost, restored at its end from the bucket as it lists, loads and gives back the run's tables exactly under that condition, and then every body reads as it did |
| `RestoreRuns.UndamagedRestore` | src/archive/recovery.rs:597-622 | of an undamaged run nothing is asked of the listing: the tables come back exactly when there are no strays and the ids are in order, and then every body archived reads as its latest bytes |
| `RestoreRuns.UndamagedIsListed` | src/archive/recovery.rs:502-541 | an undamaged run's bucket lists every pack it recorded, as it was recorded |
| `RecoveryRuns.LiveAlwaysExact` | src/archive/recovery.rs:542-568 | in every state reached by any service steps, damage, map losses, maps loaded and packs reindexed one transaction at a time, live bytes are the bodies located and never negative |
| `RecoveryRuns.GoodReads` | src/archive/matches.rs:232-327 | in an honest run's states a read answers the latest bytes, or nothing for a body never archived or freed and not located |
| `RecoveryRuns.NextGood` | src/archive/recovery.rs:495-576 | every service step, snapshot, loss, map loaded and pack reindexed keeps each location one its object lists, and each freed body in the bucket |
| `RecoveryRuns.ReindexIsRun` | src/archive/recovery.rs:523-575 | a whole reindex is the run of its per-pack transactions, so every state between two of them is a reached one |
| `RecoveryRuns.RestoreIsRun` | src/archive/recovery.rs:597-612 | a restore is a day's map loaded and then the transactions of the packs after its newest |
| `RecoveryRuns.EveryRunRecovers` | src/archive/recovery.rs:1-16 | after every honest run with losses and recoveries in it, done or half-done, no read answers other bytes than the latest, and one full reindex from there makes every body archived answer them |
| `Glob.ScanIsRanges` | src/cache/keys.rs:183-206 | a class read with a character in hand hits exactly when one of its ranges has the character, and ends at the same place: escapes, reversed and unclosed classes |
| `Glob.LexedMeansTheSame` | src/cache/keys.rs:317-363 | a pattern's tokens match exactly the keys the recursive matcher does |
| `Glob.CollapseMeansTheSame` | src/cache/keys.rs:164-170 | collapsing runs of stars changes no match |
| `Glob.Compile` | src/cache/keys.rs:159-217 | the compiling loop gives the pattern's tokens, runs of stars collapsed |
| `Glob.StarAfterSegment` | src/cache/keys.rs:228-231 | once a later star is reached the earlier one need take no more: backtracking to the last star is complete |
| `Glob.StarTakesOne` | src/cache/keys.rs:236-242 | on a mismatch the last star takes one more character and nothing is lost |
| `Glob.Matches` | src/cache/keys.rs:219-248 | the loop answers what the tokens match, in fewer than (tokens + 1) × (key length + 1) rounds |
| `Glob.PatternMatches` | src/cache/keys.rs:157-248 | compiled and matched, every pattern answers every key as the recursive matcher does, within the same bound |
| `Claim.BandIsMonotone` | src/jobs/scheduler.rs:608-612 | a higher priority number is never in a better band |
| `Claim.SameLaneOrder` | src/jobs/scheduler.rs:602-606 | inside a lane the head's order and the claim's order agree |
| `Claim.HeadsAreEnough` | src/db/store.rs:81-87 | the best head is better than every other eligible job, of any lane |
| `Claim.PairIsExact` | src/db/store.rs:38-42 | a blocked pair written as one string names one lane and one method, as long as lanes have no space |
| `Claim.Queue.ClaimJob` | src/db/store.rs:98-133 | the claim takes the best of all eligible jobs and changes only its row; it takes none exactly when none is eligible |
| `Claim.LimitsHold` | src/db/store.rs:88-93 | over every run of claims, ends and requeues a capped kind never runs more jobs than its limit |
| `SingleFlight.NextKeepsInv` | src/singleflight.rs:88-121 | the map holds exactly the flights not released, one per key, each with one leader, through every step |
| `SingleFlight.FreesOwnSlot` | src/singleflight.rs:42-52 | a release, which removes by key, removes its own slot and no other |
| `SingleFlight.JoinsWhatIsHeld` | src/singleflight.rs:93-115 | a call joins a flight of its key exactly when that flight's slot is held as it is made |
| `SingleFlight.EveryRunShares` | src/singleflight.rs:30-36 | over every interleaving at most one work runs per key, each flight has exactly one leader, and all its callers get one result |
| `SingleFlight.NeverJoinedLate` | src/singleflight.rs:5-11 | a call made after a slot is freed never gets that flight's result, whatever follows |
| `SingleFlight.JoinedAfterTheEnd` | src/singleflight.rs:102-110 | a call made between the work's end and the release still gets its result |
| `SingleFlight.TaskNeedsNoCaller` | src/singleflight.rs:6-11 | with every caller gone the task still ends and frees its key |
| `SingleFlight.Flights.Run` | src/singleflight.rs:88-121 | the entry in place is the call's step, and says who did the work |
| `SingleFlight.Flights.Finish` | src/singleflight.rs:104-107 | the task's end in place is its two steps and frees its key |
| `Pool.HolderFindsOne` | src/db/mod.rs:301-308 | a permit holder without its connection finds one idle |
| `Pool.NextKeepsInv` | src/db/mod.rs:100-120 | every step keeps idle connections plus loans, and free permits plus holders, at the pool's size, with one owner per connection |
| `Pool.PoolNeverEmpty` | src/db/mod.rs:289-323 | over every interleaving of reads, cancellations and panics the empty-pool error is unreachable, no connection is lost or shared, and all are back when no read is under way |
| `Pool.OrderMatters` | src/db/mod.rs:108-120 | with the permit released before the connection is back, a read can hold a permit and find no connection |
| `Pool.ReaderPool.Borrow` | src/db/mod.rs:289-316 | permit and connection taken in place: it always gets one |
| `Pool.ReaderPool.GiveBack` | src/db/mod.rs:111-120 | the drop in place puts the connection back and then the permit |

## Left out

- HTTP routing, authentication, error envelopes, metrics, configuration and commands: independent one-branch checks.
- The rate limiter, retries, the response caches and Riot client calls.
- `computed_at` of analytics rows: a delta stamps only the rows it touches, so it is not a function of the facts.
- Matches without a patch, outside the ranked queues, or of another key scope: one ladder's facts are modelled as they are joined.
- JSON extraction of items, runes, spells and builds: each fact and build carries the set of values it adds to each table.
- `bits` as an integer: it is the set of steps whose bit is set.
- Integer widths: counts, offsets and sizes are unbounded; `parse_index`'s checked addition and unbounded addition refuse the same entries for a region under 2^64 bytes.
- Draining.NextSize: times are real numbers; the machine's floating point and its saturating conversion are not modelled.
- Delta.AnalyticsStore.CountBatch: the rows upserted per reported table, a figure for the log, are not stated.
- Delta.AnalyticsStore.Drain: writes by others between two batches of the run are not modelled; every interleaving of batches and writes is in `LadderRuns`.
- Reads.SameRowsComeBack: the order and limit of the rows, and the sums of the other tables' reads, which go through the same filter.
- BucketListing.StoredPackReads: a pack's digest is taken from its bytes; the digest in its metadata is the one sent with them.
- Archive.ArchiveStore.Get: decompression of a fetched body is not modelled; bodies are zstd frames throughout.
- Which bodies the offload picks, and when (`next_pack`, `next_free`): every choice is covered.
- Object keys with a date, listing of other objects, and the sweep of orphan objects.
- The date and age of snapshots: a restore is given its candidates newest first.
- Claim.LimitsHold: the limits are the same for every claim of a run.
- SingleFlight.EveryRunShares: a closure that panics before its task is spawned is not modelled.
- Waiting order: which waiter a semaphore or a shared future wakes first.
