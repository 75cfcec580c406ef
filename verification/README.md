# DIRAC in Dafny: accounting buckets, the configuration service and their neighbours

DIRAC is grid middleware written in Python. This project models the parts of it that keep numbers and
settings right while many processes change them at once, and proves what they promise.

**Accounting** (`Options`, `Sums`, `Remainders`, `Granularities`, `Buckets`, `BucketTables`, `Grouping`, `Compaction`,
`Regeneration`, `Deletion`, `Rebucketing`). A record covers a span of time and is shared out over buckets
whose width depends on their age. Rows are upserted into a table keyed by start, width and key fields, later
compacted into wider buckets, extracted when a record is deleted, or rebuilt from the raw records. Reports
bucket the result again. Epochs are integers, values and shares are exact reals, a table is a map, and the
clock is an object whose readings never decrease. The methods that change the table are proved equal to
functions on tables; totals, alignment, termination and round trips are proved about those functions.

**Configuration** (`Lists`, `Cfg`, `CfgEdits`, `ConfigurationData`, `ConfigurationService`, `Replication`,
`ConfigurationProtocol`). A master accepts commits by version check or by three-way merge, and nodes pull its
tree from any server. A tree has separate maps of options and sections. `ConfigurationData` and
`ServiceInterface` are classes whose methods keep what is derived (merged tree, server list, compressed copy)
in step with its sources. The network is a state machine in which each refresh takes four steps, so that a
server may change between reading its version and its data; `Replication` proves what holds for any trees and
any order of versions. `ConfigurationProtocol` adds authors, and committers whose threads compare versions, merge,
install and generate a version in separate steps, as do those that publish slaves.

**Delivery** (`Registers`, `DataStoreClient`, `DataStoreRuns`, `InTable`, `InTableRuns`). Records are checked and
leave a client in bundles, with a failover and overlapping commits that share list objects. They then wait in a
table until worker jobs put them into the raw table and the buckets; over whole runs, what reaches the buckets is
compared with what was accepted.

**Smaller cores.** `Executors` (module instances shared by task threads), `CommandArguments` (positional
arguments), `Registry` (group membership), `Tags`, `QueueSync` and `OneCoreQueues` (queues kept up to date
with the information system).

Results that differ from what the code or its comments suggest, each proved for all inputs:

- Bucket starts stay multiples of their widths exactly for configurations in which each width divides the
  next and the last divides the largest bucket; otherwise they fail to be at moments as late as one likes
  (`AlignedExactlyOnChains`). The shipped configurations for jobs, pilots and storage do not divide
  (`JobIsNoChain`, `PilotIsNoChain`, `StorageIsNoChain`), nor does that of the queue history
  (src/DIRAC/AccountingSystem/Client/Types/WMSHistory.py:33-39), whose values are those of the pilots. Slow
  compaction reaches its goal for them all the same, since it needs the limits in order only; for limits out of
  order the last width compacted is clean in any case (`SlowCompactBuckets`).
- A record whose end precedes its start is taken, and kept raw. It gets one whole bucket or none, so that it may be
  missing from all totals (`ReversedRecord`, `ReversedInsertIsLost`, `RunsConserve`); a rebuild returns it twice
  exactly when a boundary lies between its times (`QueriesPartition`), and `RebuiltExactly` says what comes out.
- Rows that are selected for compaction and then deleted take along what other threads added to them in between;
  `RunsConserve` counts it. An insertion that reads its clock later than the compaction adds nothing to them where
  the span of a width is a multiple of it (`LateInsertionSpares`), which for jobs it is not
  (`JobInsertionMeetsStale`).
- Grouping the newest range before splitting it differs from splitting its records exactly where some record would
  go elsewhere than its group (`NewestRangeSplitsAsRaw`): with several widths that takes a record that runs
  backwards (`ForwardSplitsAsRaw`), with a single one a group on both sides of its limit is enough (`LimitInGroup`,
  `OneWidthSplitsOtherwise`).
- The condition that `deleteRecord` builds for FLOAT fields never reaches the query, so records that differ in
  such a field only are deleted together; `DeletionRestoresExactlyWhen` says when the buckets come out right.
- The conflict check of the automatic merge lets a client edit a section that the server deleted; the merge
  then fails on application, exactly in that case (`MergeFailsExactlyOnDeleted`). `MergeOutcome` reads off the three
  trees which commits conflict, which fail and which merge.
- Two overlapping refreshes of one node can take it back to an older tree (`OverlapGoesBack`). Nothing else can: the
  first step of a run that takes any node back is an install by a refresh that another one of the same node has
  overtaken (`FallIsOvertaken`), and without such installs versions only rise (`VersionsOnlyRise`).
- A commit compares versions, installs its tree and generates the new version without a lock around the three. Two
  commits from one tree that are both compared before either is installed are both accepted, and the first is lost
  (`RacingCommits`); `CommitReplacesItsBase` says exactly when none is. A node that reads the master before the
  version is generated gets an unpublished tree under a published version, unless the commit changed nothing
  (`UnversionedCommit`).
- A master that restarts may hand out another tree under its old version too (`RestartKeepsTree`), and does so once
  a slave has been published, unless its own address is among the slaves' or in its local file
  (`RestartWithSlaves`).
- No rollback is ever accepted: the archive of a kept version is opened in a mode that does not exist
  (`RollbackToVersion`; what it would do otherwise is in `Rollback` and `OverwriteKeepsTree`).
- A failed commit of records gives back what is left to a list that may have been taken by then, and a record may be
  added to such a list: it is lost if the taker is through, or if it has a bundle under way that is not full, for
  the records taken off afterwards are as many as a bundle may have (`StepLoses`, `LeftoverIsLost`,
  `AddedMeanwhileIsLost`). Nothing is lost otherwise (`RunConserves`).
- A bundle that fails half-way is queued in part (`InsertRecordBundleThroughQueue`), and when it is sent again
  that part is queued twice (`SentAgain`). A record is put into the buckets again and again if its row is never
  deleted, or if its job dies or the service stops before it is (`CommittedAgainAndAgain`), and twice if a job or a
  load outlives its time (`OutlivedJob`, `OutlivedLoad`); in runs without these it is put there once
  (`ExactlyOnce`).
- Removing a user from a group drops one mention only (`MembershipIsExact`, `NoTraceIsLeft`); a deletion that names
  a user more often than some group does raises half-way (`DeleteUsers`).
- A queue configured with processors and published with none is changed at every synchronisation
  (`SecondTimeNothingChanges`).
- A list argument is treated as a list exactly if its name is one word or looks like the marking of a list itself
  (`ListIsRecognised`); two words are not (`TwoWordListIsNoList`).
- Queues of different implementations may get one-core copies of one name. Expanding again may then change them,
  in the order in which queues are listed: exactly if of two such queues the later is replaced by a copy and the
  earlier is not (`ExpandedOnce`, `ThreeQueuesChange`).

## Model

| member | source | states |
|---|---|---|
| Granularities.CalculateBucketLengthForTime | src/DIRAC/AccountingSystem/DB/AccountingDB.py:544-553 | the width for a moment is that of the first granularity that still covers it, else the largest |
| Granularities.LengthShrinksWithTime | src/DIRAC/AccountingSystem/DB/AccountingDB.py:544-553 | later moments never get a wider bucket |
| Granularities.OlderThanLimit | src/DIRAC/AccountingSystem/DB/AccountingDB.py:1253-1262 | a moment before the time limit of a width gets a later width, now and at any later clock reading |
| Granularities.LimitsOrdered | src/DIRAC/AccountingSystem/DB/AccountingDB.py:1253-1262 | the time limits of wider widths are never later |
| Granularities.BaseIsChain | src/DIRAC/AccountingSystem/Client/Types/BaseAccountingType.py:24-28 | the default widths divide one another and the largest bucket |
| Granularities.TransferIsChain | src/DIRAC/AccountingSystem/Client/Types/DataOperation.py:31-36 | so do those of transfers |
| Granularities.JobIsNoChain | src/DIRAC/AccountingSystem/Client/Types/Job.py:43-49 | those of jobs do not |
| Granularities.PilotIsNoChain | src/DIRAC/AccountingSystem/Client/Types/PilotSubmission.py:25-31 | those of pilots do not |
| Granularities.StorageIsNoChain | src/DIRAC/AccountingSystem/Client/Types/StorageOccupancy.py:32-38 | those of storage do not |
| Granularities.JobSpaced | src/DIRAC/AccountingSystem/Client/Types/Job.py:43-49 | adjacent spans of the job configuration lie both widths apart, so its limits are ordered |
| Granularities.PilotSpaced | src/DIRAC/AccountingSystem/Client/Types/PilotSubmission.py:25-31 | so do those of pilots |
| Granularities.StorageSpaced | src/DIRAC/AccountingSystem/Client/Types/StorageOccupancy.py:32-38 | so do those of storage |
| Buckets.CalculateBuckets | src/DIRAC/AccountingSystem/DB/AccountingDB.py:555-575 | the loop ends and returns the list that BucketsOf describes |
| Buckets.RecordIsTiled | src/DIRAC/AccountingSystem/DB/AccountingDB.py:555-575 | the buckets cover the record without gap or overlap, each takes the share it has in common with it, and the shares sum to 1 |
| Buckets.TilingIsUnique | src/DIRAC/AccountingSystem/DB/AccountingDB.py:555-575 | any tiling with fitting widths that starts on a multiple is that list |
| Buckets.WidthsNeverGrow | src/DIRAC/AccountingSystem/DB/AccountingDB.py:573-574 | widths never increase along the list |
| Buckets.ReversedRecord | src/DIRAC/AccountingSystem/DB/AccountingDB.py:560-575 | a record that ends before it starts gets one whole bucket or none |
| Buckets.ChainKeepsAlignment | src/DIRAC/AccountingSystem/DB/AccountingDB.py:544-575 | with a chain of widths every bucket start is a multiple of its width |
| Buckets.AlignedExactlyOnChains | src/DIRAC/AccountingSystem/DB/AccountingDB.py:544-575 | for spaced configurations a chain is also necessary: without it starts are off their widths after every moment |
| BucketTables.BucketTable.WriteBuckets | src/DIRAC/AccountingSystem/DB/AccountingDB.py:865-905 | each bucket's row grows by its share of the values, a missing row is created |
| BucketTables.BucketTable.SplitInBuckets | src/DIRAC/AccountingSystem/DB/AccountingDB.py:752-765 | the table becomes the one with the record spread at some clock reading |
| BucketTables.BucketTable.SelectIndividual | src/DIRAC/AccountingSystem/DB/AccountingDB.py:1313-1333 | distinct rows of the width before the limit, all of them if fewer than the maximum |
| BucketTables.BucketTable.DeleteIndividual | src/DIRAC/AccountingSystem/DB/AccountingDB.py:1335-1358 | exactly the rows given are gone |
| BucketTables.TableIsSum | src/DIRAC/AccountingSystem/DB/AccountingDB.py:865-905 | every value in the table is the old one plus what each record contributes, in any order |
| BucketTables.EntryBrings | src/DIRAC/AccountingSystem/DB/AccountingDB.py:752-765 | a record brings each of its buckets the value times the share of its time that falls there, and nothing to any other |
| BucketTables.SpreadingConserves | src/DIRAC/AccountingSystem/DB/AccountingDB.py:752-765 | totals over a choice of rows grow by the records that fall in it, if each gets all of its shares |
| BucketTables.SpreadingAdds | src/DIRAC/AccountingSystem/DB/AccountingDB.py:752-765 | and in general by those of them that get any bucket |
| Compaction.SlowCompactBuckets | src/DIRAC/AccountingSystem/DB/AccountingDB.py:1245-1311 | terminates, though the clock advances; the table is the result of rounds over stale rows; afterwards the last width compacted has no row before its limit, and no width has if the limits are in order |
| Compaction.CompactSelection | src/DIRAC/AccountingSystem/DB/AccountingDB.py:1262-1308 | a round makes the stale rows of its width fewer and, if the limits are in order, adds none to narrower widths; a short selection leaves none |
| Compaction.StalePieces | src/DIRAC/AccountingSystem/DB/AccountingDB.py:1292-1303 | what a stale row is split into is not stale for its width or a narrower one |
| Compaction.RoundShrinksStale | src/DIRAC/AccountingSystem/DB/AccountingDB.py:1262-1308 | after a round the stale rows are among those not selected |
| Compaction.RowsAreTiled | src/DIRAC/AccountingSystem/DB/AccountingDB.py:1292-1303 | every row of a round is split over exactly the time its bucket spanned, with its key fields, its values and its own clock reading |
| Compaction.RoundMovesRows | src/DIRAC/AccountingSystem/DB/AccountingDB.py:1292-1308 | after a round every bucket holds what it held unless it was selected, and of each selected row the values times the part of its time that falls there |
| Compaction.SlowCompactionConserves | src/DIRAC/AccountingSystem/DB/AccountingDB.py:1245-1311 | any sequence of rounds that other writers leave alone keeps every total per key fields, for any configuration and clock |
| Compaction.StaleRowMovesWhole | src/DIRAC/AccountingSystem/DB/AccountingDB.py:1292-1303 | along a chain a stale aligned row moves whole into one strictly wider bucket that holds it |
| Compaction.SlowCompactionKeepsWeeks | src/DIRAC/AccountingSystem/DB/AccountingDB.py:1245-1311 | along a chain rows stay aligned and no value leaves its largest cell |
| Compaction.FastCompactWidth | src/DIRAC/AccountingSystem/DB/AccountingDB.py:1196-1243 | the stale rows of a width are grouped by the next bucket and key fields, deleted, and their sums split again |
| Compaction.FastGroups | src/DIRAC/AccountingSystem/DB/AccountingDB.py:1161-1184 | a group holds rows of the same key fields that start in one bucket of the next width, no other group has both; its sum is that of its rows, from the first start to the last |
| Compaction.FastPassConserves | src/DIRAC/AccountingSystem/DB/AccountingDB.py:1196-1243 | such a pass keeps every total per key fields |
| Compaction.UndisturbedChange | src/DIRAC/AccountingSystem/DB/AccountingDB.py:1196-1311 | a round of the slow compaction and a pass of the fast one are changes of the runs below, without other writers |
| Compaction.RunsConserve | src/DIRAC/AccountingSystem/DB/AccountingDB.py:1196-1311 | over any sequence of inserts and compactions of both kinds, with any insertions between selection, deletion and writing back, totals grow by exactly the inserted records that get a bucket, less what was added to selected rows before their deletion |
| Compaction.NothingIsCaught | src/DIRAC/AccountingSystem/DB/AccountingDB.py:1313-1358 | which is nothing if those insertions have no share in the selected rows |
| Compaction.LateInsertionSpares | src/DIRAC/AccountingSystem/DB/AccountingDB.py:1253-1262 | as they have none if they read their clock after the compaction and the span of the width is a multiple of it |
| Compaction.MeetsStale | src/DIRAC/AccountingSystem/DB/AccountingDB.py:1253-1262 | where it is not, a moment at the limit has its bucket begin before it, among the rows selected |
| Compaction.JobInsertionMeetsStale | src/DIRAC/AccountingSystem/Client/Types/Job.py:43-49 | so it is for jobs and a year of buckets of two days, at every compaction on a full two days |
| Compaction.ReversedInsertIsLost | src/DIRAC/AccountingSystem/DB/AccountingDB.py:560-575 | a record that gets none: with the default widths, one that ends a second before it starts on a full hour |
| Compaction.RunsStayAligned | src/DIRAC/AccountingSystem/DB/AccountingDB.py:1125-1159 | and along a chain every row stays aligned |
| Regeneration.RegenerateBuckets | src/DIRAC/AccountingSystem/DB/AccountingDB.py:1393-1511 | the table is emptied and holds what each query returned, every entry split at its own time |
| Regeneration.RunQuery | src/DIRAC/AccountingSystem/DB/AccountingDB.py:1433-1492 | a grouped query returns the sums of its groups, the others their records; what that comes to is in the next three rows |
| Regeneration.RangeIs | src/DIRAC/AccountingSystem/DB/AccountingDB.py:1435-1454 | a range holds the records that end when the spans before it are over and begin before its own is; the last one reaches back without end |
| Regeneration.GroupedQueryReturns | src/DIRAC/AccountingSystem/DB/AccountingDB.py:1433-1467 | the first query of a range returns, for each combination of key fields and bucket of the width of that range among its records that lie in one such bucket, exactly one entry: their sums and their number, from the first start to the last end |
| Regeneration.SingleQueryReturns | src/DIRAC/AccountingSystem/DB/AccountingDB.py:1468-1477 | the second returns the other records of the range as they are |
| Regeneration.QueriesPartition | src/DIRAC/AccountingSystem/DB/AccountingDB.py:1433-1492 | every raw record matches some query, and exactly one if and only if it does not run backwards over an inner boundary |
| Regeneration.RebuiltExactly | src/DIRAC/AccountingSystem/DB/AccountingDB.py:1433-1508 | for any raw table, the rebuilt sums and what gets no bucket are the raw records, each as often as queries match it |
| Regeneration.RebuiltTotals | src/DIRAC/AccountingSystem/DB/AccountingDB.py:1433-1508 | for raw tables without records that run backwards, the rebuilt sums and entry counts per key fields are those of the raw records |
| Regeneration.NewestRangeSplitsAsRaw | src/DIRAC/AccountingSystem/DB/AccountingDB.py:1433-1492 | in the newest range, at a fixed clock, what the grouped query returns gives the same bucket rows as the records one by one, if and only if every record would get the buckets of the entry with its key fields and bucket |
| Regeneration.ForwardSplitsAsRaw | src/DIRAC/AccountingSystem/DB/AccountingDB.py:1433-1492 | with several widths it does for records that do not run backwards |
| Regeneration.LimitInGroup | src/DIRAC/AccountingSystem/DB/AccountingDB.py:1433-1492 | with one width it does not where two such records of one bucket and the same key fields lie on both sides of the limit of that width |
| Regeneration.OneWidthSplitsOtherwise | src/DIRAC/AccountingSystem/DB/AccountingDB.py:1433-1492 | whatever the query returns for two records of no length that do |
| Deletion.DeleteFromBuckets | src/DIRAC/AccountingSystem/DB/AccountingDB.py:767-863 | each bucket that is there loses its share, clamped at zero; none is created |
| Deletion.DeletionTakes | src/DIRAC/AccountingSystem/DB/AccountingDB.py:767-863 | from any table: a bucket of the record that is there loses the value times the share of the time that falls in it times the number of records, never going below zero, and no other bucket changes |
| Deletion.DeleteRecord | src/DIRAC/AccountingSystem/DB/AccountingDB.py:686-750 | the matching raw records are gone and as many shares extracted |
| Deletion.OthersAre | src/DIRAC/AccountingSystem/DB/AccountingDB.py:707-731 | what stays are the records that differ in key fields, times or a value that is no FLOAT, each as often as before |
| Deletion.DeletionRestoresExactlyWhen | src/DIRAC/AccountingSystem/DB/AccountingDB.py:686-863 | a field of the buckets is restored if and only if the deleted records add up to the number deleted times the value given, or fall short of it alone in their buckets |
| Deletion.DeletionUndoesInsertion | src/DIRAC/AccountingSystem/DB/AccountingDB.py:686-863 | every field that is no FLOAT comes out as if the copies had never been inserted, whatever else was, records that run backwards included |
| Deletion.FloatFieldNotRestored | src/DIRAC/AccountingSystem/DB/AccountingDB.py:721-723 | a FLOAT field does not: the condition built for it is dropped |
| Rebucketing.SpanToGranularity | src/DIRAC/AccountingSystem/private/DBUtils.py:73-117 | the nested loops give the table in which every row is spread over cells of the granularity |
| Rebucketing.SpannedHolds | src/DIRAC/AccountingSystem/private/DBUtils.py:73-117 | the value of a cell is the sum over all rows of the value times the part of the row that lies in the cell; a row without length, or with exactly that of a cell, counts whole where it starts |
| Rebucketing.SumToGranularity | src/DIRAC/AccountingSystem/private/DBUtils.py:119-129 | the weights are dropped from it |
| Rebucketing.AverageToGranularity | src/DIRAC/AccountingSystem/private/DBUtils.py:131-143 | every field is divided by a weight that is never zero |
| Rebucketing.AverageIsMean | src/DIRAC/AccountingSystem/private/DBUtils.py:131-143 | an average is that sum over the sum of the parts |
| Rebucketing.SpanKeepsTotals | src/DIRAC/AccountingSystem/private/DBUtils.py:73-129 | every field's grand total is kept, None counting as zero |
| Rebucketing.TwoStepsAreOne | src/DIRAC/AccountingSystem/private/DBUtils.py:73-129 | a fine granularity and then a coarse multiple of it give what the coarse one gives |
| Rebucketing.AveragesBounded | src/DIRAC/AccountingSystem/private/DBUtils.py:131-143 | an average lies between the bounds of the values that reach its cell |
| Lists.UniqueElements | src/DIRAC/Core/Utilities/List.py:14-30 | the loop keeps the first occurrence of each element |
| Lists.UniqueHasAll | src/DIRAC/Core/Utilities/List.py:14-30 | nothing twice, nothing missing, nothing new |
| Lists.UniqueKeepsOrder | src/DIRAC/Core/Utilities/List.py:14-30 | in the order of first occurrences |
| Lists.FromCharIsClean | src/DIRAC/Core/Utilities/List.py:44-55 | what a split text yields is stripped, not empty and without the separator |
| Lists.FromCharFirst | src/DIRAC/Core/Utilities/List.py:44-55 | the first item up to the separator is stripped, and left out if nothing remains, then come the others |
| Lists.StripIs | src/DIRAC/Core/Utilities/List.py:44-55 | blanks are taken off both ends, all of them and nothing else |
| Lists.JoinRoundTrip | src/DIRAC/Core/Utilities/List.py:44-55 | such items joined with comma and blank split into themselves |
| Lists.PathRoundTrip | src/DIRAC/ConfigurationSystem/private/ConfigurationData.py:163 | a path splits into the levels it is made of |
| Cfgs.LookupMerged | src/DIRAC/ConfigurationSystem/private/ConfigurationData.py:56 | an option of a merged tree has the second tree's value if there is one, else the first's |
| Cfgs.SectionMerged | src/DIRAC/ConfigurationSystem/private/ConfigurationData.py:56 | and the sections of either |
| Cfgs.LookupSet | src/DIRAC/ConfigurationSystem/private/Modificator.py:119-142 | setting an option creates the sections on its way and changes no other option |
| Cfgs.SectionSet | src/DIRAC/ConfigurationSystem/private/ConfigurationData.py:173-188 | nor any section that does not lie on its way |
| Cfgs.SetSame | src/DIRAC/ConfigurationSystem/private/ConfigurationData.py:173-188 | setting an option leaves a tree as it was exactly when it had that value |
| CfgEdits.ModificationsApply | src/DIRAC/ConfigurationSystem/private/ServiceInterfaceBase.py:353-362 | the modifications between two trees apply to the first and give the second |
| CfgEdits.AppliesExactlyWhenSparing | src/DIRAC/ConfigurationSystem/private/ServiceInterfaceBase.py:307-340 | once the conflict check passes, the client's modifications apply to the server's tree if and only if they enter no section the server deleted |
| CfgEdits.OrdersAgree | src/DIRAC/ConfigurationSystem/private/ServiceInterfaceBase.py:342-363 | the client's modifications on the server's tree give what the server's give on the client's |
| CfgEdits.MergedValues | src/DIRAC/ConfigurationSystem/private/ServiceInterfaceBase.py:342-363 | on every path the client touched the client's value, on every path the server touched the server's, else the base's |
| CfgEdits.MergeIsThreeWay | src/DIRAC/ConfigurationSystem/private/ServiceInterfaceBase.py:342-363 | a merge that succeeds keeps each side's changes, from the trees themselves |
| CfgEdits.MergeFailsExactlyOnDeleted | src/DIRAC/ConfigurationSystem/private/ServiceInterfaceBase.py:342-363 | it fails without a conflict if and only if the client entered a section the server deleted |
| CfgEdits.MergeOutcome | src/DIRAC/ConfigurationSystem/private/ServiceInterfaceBase.py:307-363 | from the trees alone: a conflict exactly where, in a section all three trees have, the server changed an option while the client changed anything in it (at the top, whatever the client did), or the client added or dropped a section that the server touched; else a failure exactly where the client changed a section that the server dropped; else a merge |
| CfgEdits.SeparateChangesMerge | src/DIRAC/ConfigurationSystem/private/ServiceInterfaceBase.py:318-331 | so changes in different sections always merge if the server changed no option at the top |
| CfgEdits.DeletedSectionFails | src/DIRAC/ConfigurationSystem/private/ServiceInterfaceBase.py:318-333 | any change of the client inside a section that the server dropped is such a case |
| ConfigurationDatas.LookupDeleted | src/DIRAC/ConfigurationSystem/private/ConfigurationData.py:190-203 | deleting removes what is at or below the path and nothing else; a missing section means nothing was there |
| ConfigurationDatas.SectionDeleted | src/DIRAC/ConfigurationSystem/private/ConfigurationData.py:190-203 | nor is any other section lost |
| ConfigurationDatas.ServersAreListedOnce | src/DIRAC/ConfigurationSystem/private/ConfigurationData.py:57-68 | each configured server once, local ones first |
| ConfigurationDatas.ServersSet | src/DIRAC/ConfigurationSystem/private/ConfigurationData.py:274-276 | the servers known are then the local ones and those set |
| ConfigurationDatas.VersionSet | src/DIRAC/ConfigurationSystem/private/ConfigurationData.py:210-221 | a version reads as it was set and no other option changes |
| ConfigurationDatas.ConfigurationData.ExtractOption | src/DIRAC/ConfigurationSystem/private/ConfigurationData.py:157-171 | the walk over the sections finds the option at the path, or None |
| ConfigurationDatas.ConfigurationData.GetOption | src/DIRAC/ConfigurationSystem/private/ConfigurationData.py:157-171 | the local value if there is one, else the remote one |
| ConfigurationDatas.ConfigurationData.Sync | src/DIRAC/ConfigurationSystem/private/ConfigurationData.py:54-69 | from any state: merged tree, server list and compressed copy match the trees |
| ConfigurationDatas.ConfigurationData.MergeWithLocal | src/DIRAC/ConfigurationSystem/private/ConfigurationData.py:80-90 | keeps that match; the local tree is merged with the new one |
| ConfigurationDatas.ConfigurationData.LoadRemoteCFGFromCompressedMem | src/DIRAC/ConfigurationSystem/private/ConfigurationData.py:92-102 | keeps it; the remote tree is the one loaded |
| ConfigurationDatas.ConfigurationData.SetOptionInCFG | src/DIRAC/ConfigurationSystem/private/ConfigurationData.py:173-188 | keeps it; the option is set in the tree chosen; an empty path raises and changes nothing |
| ConfigurationDatas.ConfigurationData.DeleteOptionInCFG | src/DIRAC/ConfigurationSystem/private/ConfigurationData.py:190-203 | keeps it although it may return without a sync |
| ConfigurationDatas.ConfigurationData.GenerateNewVersion | src/DIRAC/ConfigurationSystem/private/ConfigurationData.py:205-208 | keeps it; only the version changes |
| ConfigurationDatas.ConfigurationData.GetVersion | src/DIRAC/ConfigurationSystem/private/ConfigurationData.py:215-221 | the version option, "0" if it is missing or empty |
| ConfigurationDatas.ConfigurationData.GetCompressedData | src/DIRAC/ConfigurationSystem/private/ConfigurationData.py:288-291 | always that of the current remote tree |
| ConfigurationDatas.ConfigurationData.SetRemoteCFG | src/DIRAC/ConfigurationSystem/private/ConfigurationData.py:373-376 | without a sync the match is lost, except exactly where nothing derived depends on the change |
| ConfigurationServices.OverwriteKeepsTree | src/DIRAC/ConfigurationSystem/private/ServiceInterfaceBase.py:195-255 | a tree handed in under the current version is refused only for another name, and every option but the version becomes its own |
| ConfigurationServices.Commits | src/DIRAC/ConfigurationSystem/private/ServiceInterfaceBase.py:195-235 | who may commit, and that a commit made from the current version is taken as it is unless the name differs |
| ConfigurationServices.StaleCommits | src/DIRAC/ConfigurationSystem/private/ServiceInterfaceBase.py:212-235 | with merging enabled a commit made from an older kept version is refused exactly for a conflict between the trees, a dropped section entered, or a change of name |
| ConfigurationServices.RestartKeepsTree | src/DIRAC/ConfigurationSystem/private/ServiceInterfaceBase.py:49-74 | a restarted master keeps its version, and its tree exactly when name, address and master address are already there |
| ConfigurationServices.ExportedIs | src/DIRAC/ConfigurationSystem/private/ServiceInterfaceBase.py:49-74 | option by option what a started master hands out: name, own address as master and among the servers, a new version only without one, all else as in the file |
| ConfigurationServices.RestartWithSlaves | src/DIRAC/ConfigurationSystem/private/ServiceInterfaceBase.py:84-129 | after slaves were published that is so only if the master is one of them or in its own local file |
| ConfigurationServices.ServiceInterface.LoadConfigurationData | src/DIRAC/ConfigurationSystem/private/ServiceInterfaceBase.py:49-74 | the tree handed out after a start |
| ConfigurationServices.ServiceInterface.UpdateConfiguration | src/DIRAC/ConfigurationSystem/private/ServiceInterfaceBase.py:195-255 | a refused commit changes nothing; an accepted one is in force under a new version even if it could not be written, and kept only if it was |
| ConfigurationServices.ServiceInterface.Reconcile | src/DIRAC/ConfigurationSystem/private/ServiceInterfaceBase.py:212-230 | which tree is committed: that handed in, or the merge where the version is old and merging enabled |
| ConfigurationServices.ServiceInterface.GetVersionContents | src/DIRAC/ConfigurationSystem/private/ServiceInterfaceBase.py:268-276 | the contents of a kept version if the mode of opening exists, else it raises |
| ConfigurationServices.ServiceInterface.Rollback | src/DIRAC/ConfigurationSystem/Service/ConfigurationHandler.py:122-129 | with a mode that exists, what is read would be committed over the current version |
| ConfigurationServices.ServiceInterface.RollbackToVersion | src/DIRAC/ConfigurationSystem/Service/ConfigurationHandler.py:122-129 | raises for every kept version, fails for every other, and changes nothing in either case |
| ConfigurationServices.ServiceInterface.PublishSlaveServer | src/DIRAC/ConfigurationSystem/private/ServiceInterfaceBase.py:84-109 | a new slave changes list and version, a known one its time only, anything else nothing |
| ConfigurationServices.ServiceInterface.CheckSlavesStatus | src/DIRAC/ConfigurationSystem/private/ServiceInterfaceBase.py:111-129 | exactly the slaves within the grace time stay; only a change makes a new version |
| ConfigurationServices.RepublishedIs | src/DIRAC/ConfigurationSystem/private/ServiceInterfaceBase.py:84-129 | the new list and version, and no other option changed |
| ConfigurationServices.GetCompressedDataIfNewer | src/DIRAC/ConfigurationSystem/Service/ConfigurationHandler.py:53-58 | the data exactly for a caller with an older version |
| ConfigurationServices.UpdateFromRemoteLocation | src/DIRAC/ConfigurationSystem/private/RefresherBase.py:19-35 | undisturbed, the node takes over the tree of the server exactly if that has the newer version |
| Lists.BeforeIsTransitive | src/DIRAC/ConfigurationSystem/private/RefresherBase.py:28 | versions are compared as text, and that order is transitive |
| Replication.StepKeepsCoherent | src/DIRAC/ConfigurationSystem/private/RefresherBase.py:19-35 | every step of every refresh keeps all trees published, and the data at hand where it is needed |
| Replication.PublishKeeps | src/DIRAC/ConfigurationSystem/private/ConfigurationData.py:205-208 | a newer version replaces no published one |
| Replication.FallIsOvertaken | src/DIRAC/ConfigurationSystem/private/RefresherBase.py:19-35 | over any run, the first step that takes a node back is an install by a refresh since whose start another refresh of that node has installed a tree |
| Replication.RisesUndisturbed | src/DIRAC/ConfigurationSystem/private/RefresherBase.py:19-35 | so without such installs every step keeps or raises every version |
| Replication.OverlapGoesBack | src/DIRAC/ConfigurationSystem/private/Refresher.py:47-69 | from every state with a node behind the master, two overlapping refreshes lead to a step that takes it back |
| ConfigurationProtocol.StartIsConsistent | src/DIRAC/ConfigurationSystem/private/ServiceInterfaceBase.py:28-41 | the start of a master with a version, and nodes without a tree, satisfies the invariant |
| ConfigurationProtocol.StepKeepsConsistent | src/DIRAC/ConfigurationSystem/private/ServiceInterfaceBase.py:195-255 | every step of authors, committers, master and nodes keeps it, whatever commits race |
| ConfigurationProtocol.NodesAgree | src/DIRAC/ConfigurationSystem/private/RefresherBase.py:19-35 | in every state of every run equal versions mean equal trees, no node is ahead of what the master published last, which is what it holds once every write has its version, and data is present when needed |
| ConfigurationProtocol.VersionsOnlyRise | src/DIRAC/ConfigurationSystem/private/RefresherBase.py:19-35 | over every run of authors, master and nodes in which no install was overtaken, every node's version only rises |
| ConfigurationProtocol.SerialRunsRise | src/DIRAC/ConfigurationSystem/private/Refresher.py:47-69 | which holds for every run whose nodes refresh one at a time |
| ConfigurationProtocol.CommitReplacesItsBase | src/DIRAC/ConfigurationSystem/private/ServiceInterfaceBase.py:195-255 | an unmerged commit made from a published tree replaces that very tree, nothing having been written since, if and only if no version was outstanding when it was compared and nothing was written until its installation |
| ConfigurationProtocol.CommitKeepsServerEdits | src/DIRAC/ConfigurationSystem/private/ServiceInterfaceBase.py:216-230 | a commit, merged or not, that installs before anything else is written keeps every change made on the server since and makes every change of its author |
| ConfigurationProtocol.UpdateAlone | src/DIRAC/ConfigurationSystem/private/ServiceInterfaceBase.py:195-255 | comparison, merge and installation on their own are the update of the server as a whole |
| ConfigurationProtocol.AuthorsCommit | src/DIRAC/ConfigurationSystem/private/ServiceInterfaceBase.py:195-255 | an author who loads the tree and commits a change undisturbed has it in force under the new version |
| ConfigurationProtocol.SlavesArePublished | src/DIRAC/ConfigurationSystem/private/ServiceInterfaceBase.py:84-109 | the steps that publish slaves are, on their own, what the server does |
| ConfigurationProtocol.RacingCommits | src/DIRAC/ConfigurationSystem/private/ServiceInterfaceBase.py:195-255 | two commits both compared before either is installed are both accepted and the second replaces the first |
| ConfigurationProtocol.UnversionedCommit | src/DIRAC/ConfigurationSystem/private/ServiceInterfaceBase.py:236-243 | before its version is generated an accepted tree stands under the old one, and is published exactly if it is the old tree |
| ConfigurationProtocol.StaleConfigurationEdit | src/DIRAC/ConfigurationSystem/private/ServiceInterfaceBase.py:332-340 | a stale commit that changes the section of the version option always conflicts |
| Registers.CheckBaseType | src/DIRAC/AccountingSystem/Client/DataStoreClient.py:48-55 | true exactly for proper descendants, along any path of bases, of a class with the name of the base type |
| Registers.CheckValues | src/DIRAC/AccountingSystem/Client/Types/BaseAccountingType.py:118-140 | true exactly if every field has a value, every value field a number, both times are dates and the type itself agrees |
| DataStoreClients.DataStoreClient.AddRegister | src/DIRAC/AccountingSystem/Client/DataStoreClient.py:57-72 | taken exactly if it descends from the base type and fits, and then put at the end of the list unless accounting is disabled |
| DataStoreClients.DataStoreClient.Commit | src/DIRAC/AccountingSystem/Client/DataStoreClient.py:77-117 | records leave in bundles from the front up to the first that is neither accepted nor, once the grace time is over, taken by the failover; each is exactly where it was accepted; success counts those that left and means all |
| DataStoreClients.DataStoreClient.SendAll | src/DIRAC/AccountingSystem/Client/DataStoreClient.py:91-109 | the loop terminates under every mix of replies and clock readings, with that result |
| DataStoreClients.MarkIs | src/DIRAC/AccountingSystem/Client/DataStoreClient.py:93-109 | so many bundles hold five thousand records each, the last one what is left |
| DataStoreClients.DataStoreClient.Attempts | src/DIRAC/AccountingSystem/Client/DataStoreClient.py:92-107 | a bundle is delivered exactly if the data store accepts it, fails over exactly if it is rejected, the failover is enabled and accepts, and more than the grace time has passed since the last success, which is remembered |
| DataStoreClients.NoFailoverInTime | src/DIRAC/AccountingSystem/Client/DataStoreClient.py:91-109 | with all readings within the grace time nothing goes to the failover |
| DataStoreRuns.RunConserves | src/DIRAC/AccountingSystem/Client/DataStoreClient.py:57-117 | with any number of overlapping commits and additions, the records added are on some list, delivered, failed over or lost, successes count what left, and records are lost if and only if some step loses them |
| DataStoreRuns.StartIsAccounted | src/DIRAC/AccountingSystem/Client/DataStoreClient.py:32-46 | a client with records and no commit is a start of such runs |
| DataStoreRuns.StepLoses | src/DIRAC/AccountingSystem/Client/DataStoreClient.py:70-115 | a step loses records exactly if it appends to a list whose taker is through, or takes records off that came in behind a bundle that was not full |
| DataStoreRuns.CurrentIsAlive | src/DIRAC/AccountingSystem/Client/DataStoreClient.py:87-89 | the list that is current has been taken by no commit yet |
| DataStoreRuns.LeftoverIsLost | src/DIRAC/AccountingSystem/Client/DataStoreClient.py:113-115 | a failed commit gives its record back to a list that another commit has taken and left |
| DataStoreRuns.AddedMeanwhileIsLost | src/DIRAC/AccountingSystem/Client/DataStoreClient.py:70-109 | a record added behind a bundle under way is taken off with it, and the commit reports success |
| DataStoreRuns.CommitsEnd | src/DIRAC/AccountingSystem/Client/DataStoreClient.py:91-115 | without new commits and records, the steps of commits are bounded by the records on lists and the commits under way |
| InTables.AccountingQueue.InsertRecordBundleThroughQueue | src/DIRAC/AccountingSystem/DB/AccountingDB.py:588-602 | success queues every record of the bundle under a new number, an error exactly those before the failing one; nothing else changes |
| InTables.SentAgain | src/DIRAC/AccountingSystem/DB/AccountingDB.py:588-602 | after an error at record k and a second attempt the records queued are the bundle and its first k, so some are queued twice if and only if k is not 0 |
| InTables.AccountingQueue.InsertFromINTable | src/DIRAC/AccountingSystem/DB/AccountingDB.py:622-637 | the job settles every record, whatever fails for the others: the raw table and the buckets grow by exactly what its outcomes say, and every accepted record is still in the table or committed |
| InTables.SettledIs | src/DIRAC/AccountingSystem/DB/AccountingDB.py:622-637 | for a record settled and every other one: what is added to its counts, and what becomes of its row |
| InTables.AccountingQueue.InsertRecordDirectly | src/DIRAC/AccountingSystem/DB/AccountingDB.py:639-684 | the raw record is appended and its shares are added to the buckets, or the buckets are as before, perhaps with the raw record left |
| InTables.AccountingQueue.MarkAllPendingRecordsAsNotTaken | src/DIRAC/AccountingSystem/DB/AccountingDB.py:159-170 | every waiting record, and no other, may be loaded at any later clock reading, with its contents and all counts as they were; an error changes nothing |
| InTableRuns.StepKeeps | src/DIRAC/AccountingSystem/DB/AccountingDB.py:172-244 | every step of loads, jobs and restarts keeps each record in the table or in the buckets |
| InTableRuns.NothingIsLost | src/DIRAC/AccountingSystem/DB/AccountingDB.py:577-637 | over every run, whatever fails, an accepted record waits in its row as it was accepted, or has been committed |
| InTableRuns.SelectIsExact | src/DIRAC/AccountingSystem/DB/AccountingDB.py:201-216 | a load selects no record that a job holds, as long as none outlives its time |
| InTableRuns.CarefulStepIsExact | src/DIRAC/AccountingSystem/DB/AccountingDB.py:172-244 | every careful step keeps holds exclusive and counts exact |
| InTableRuns.ExactlyOnce | src/DIRAC/AccountingSystem/DB/AccountingDB.py:172-244 | over every careful run no two jobs hold a record, and each is committed exactly once by the time it has left the table |
| InTableRuns.QueueIsDrained | src/DIRAC/AccountingSystem/DB/AccountingDB.py:588-637 | once a careful run has emptied the table, the records put into the buckets are those accepted, each once |
| InTableRuns.DrainingFillsBuckets | src/DIRAC/AccountingSystem/DB/AccountingDB.py:588-684 | so the totals of the buckets grow by those of all accepted records, less the ones that get no bucket |
| InTableRuns.CommittedAgainAndAgain | src/DIRAC/AccountingSystem/DB/AccountingDB.py:622-637 | a record is committed any number of times if each time its row is not deleted, or the job dies or the service restarts before it is |
| InTableRuns.OutlivedJob | src/DIRAC/AccountingSystem/DB/AccountingDB.py:201-216 | it is committed twice if a job outlives the time its row stays taken |
| InTableRuns.OutlivedLoad | src/DIRAC/AccountingSystem/DB/AccountingDB.py:172-216 | or a load the time its lock holds |
| Executors.EmptyIsSound | src/DIRAC/Core/Base/ExecutorReactor.py:57-67 | a new cluster has made no instance and every bookkeeping of instances agrees |
| Executors.StepIsSound | src/DIRAC/Core/Base/ExecutorReactor.py:111-200 | every step of every task thread keeps each instance in one place |
| Executors.InstancesAreExclusive | src/DIRAC/Core/Base/ExecutorReactor.py:111-200 | over any interleaving no instance serves two tasks, no task goes through more than eleven modules or is answered twice |
| Executors.InstancesAreCounted | src/DIRAC/Core/Base/ExecutorReactor.py:111-200 | the instances made are those pooled, in use and dropped |
| Executors.AnswersAreTrue | src/DIRAC/Core/Base/ExecutorReactor.py:146-200 | over any interleaving, each task that is answered went from the module it was sent to as every module said, to the first that did not send it on, or to none for an unknown module, and the message says what came of it there |
| Executors.MindCluster.GetInstance | src/DIRAC/Core/Base/ExecutorReactor.py:118-134 | the oldest pooled instance, else a new one; none for an unknown module |
| Executors.MindCluster.RunModule | src/DIRAC/Core/Base/ExecutorReactor.py:172-184 | the instance goes to the end of the pool of its module, or is dropped exactly if it raised |
| Executors.MindCluster.ModuleProcess | src/DIRAC/Core/Base/ExecutorReactor.py:172-200 | the task goes through exactly the modules of its route and comes out as the last of them says; all instances are back but one that raised |
| Executors.RouteIs | src/DIRAC/Core/Base/ExecutorReactor.py:172-200 | which each follow from what the one before said, are at most eleven, and end with the first that does not send the task on to a known module |
| Executors.MindCluster.ProcessTask | src/DIRAC/Core/Base/ExecutorReactor.py:146-170 | one message that tells how the last module ended, an error if it raised, if there was none, or if no message could be made |
| CommandArguments.LocalConfiguration.RegisterCmdArg | src/DIRAC/ConfigurationSystem/Client/LocalConfiguration.py:165-236 | succeeds if and only if the rules hold with the new argument, which stands at the end with its default, and is left behind by a failed rule about lists |
| CommandArguments.AlternatedIs | src/DIRAC/ConfigurationSystem/Client/LocalConfiguration.py:208-210 | the names of an argument with several stand between bars, in order |
| CommandArguments.ListIsRecognised | src/DIRAC/ConfigurationSystem/Client/LocalConfiguration.py:208-229 | a list argument is recognised if and only if its name is one word or itself looks like the marking of a list |
| CommandArguments.OneWordListIsList | src/DIRAC/ConfigurationSystem/Client/LocalConfiguration.py:208-229 | so one with a one-word name is |
| CommandArguments.TwoWordListIsNoList | src/DIRAC/ConfigurationSystem/Client/LocalConfiguration.py:208-229 | and one whose name begins with two words is not |
| CommandArguments.ParseArguments | src/DIRAC/ConfigurationSystem/Client/LocalConfiguration.py:397-429 | refused exactly for too few mandatory or unfit values, else the group of each argument |
| CommandArguments.EnoughForList | src/DIRAC/ConfigurationSystem/Client/LocalConfiguration.py:413-416 | the slice of the list argument is never negative |
| CommandArguments.GroupsPartition | src/DIRAC/ConfigurationSystem/Client/LocalConfiguration.py:402-418 | with a list argument and enough given, the flattened groups are the given arguments |
| CommandArguments.GroupsTakeFirst | src/DIRAC/ConfigurationSystem/Client/LocalConfiguration.py:402-418 | without one, the first of them |
| CommandArguments.GroupsFallBack | src/DIRAC/ConfigurationSystem/Client/LocalConfiguration.py:402-418 | with too few, the given ones and then defaults |
| CommandArguments.CheckLooksAtValue | src/DIRAC/ConfigurationSystem/Client/LocalConfiguration.py:420-427 | the check of values looks at the one value exactly where no list argument before took more than one |
| Registry.CSAPI.AddUser | src/DIRAC/ConfigurationSystem/Client/CSAPI.py:390-433 | succeeds exactly for a new user with the needed properties and known groups; each group gains the user as often as requests for it find it missing |
| Registry.CSAPI.ModifyUser | src/DIRAC/ConfigurationSystem/Client/CSAPI.py:435-502 | a registered user gets the properties, then every group is reassigned if all requested ones are known, and none if none are given; it is a change to commit exactly if a property or a membership differs; an unknown one is refused, or added as AddUser would |
| Registry.NothingToChange | src/DIRAC/ConfigurationSystem/Client/CSAPI.py:464-502 | where nothing is reported as modified, nothing is |
| Registry.CSAPI.DeleteUsers | src/DIRAC/ConfigurationSystem/Client/CSAPI.py:338-375 | one mention of each registered user goes from every group for each time it is named; raises exactly if some group has fewer, with the names before done |
| Registry.MembershipIsExact | src/DIRAC/ConfigurationSystem/Client/CSAPI.py:463-492 | the user is then in exactly the requested groups if and only if these have a Users option, the name can stand in a list, and no other group mentions the user twice; how often each group then mentions the user, and all others stay where they were |
| Registry.NoTraceIsLeft | src/DIRAC/ConfigurationSystem/Client/CSAPI.py:338-375 | a deleted user is left in a group exactly where it was mentioned more often than it was named |
| Registry.CSAPI.CheckAndSort | src/DIRAC/ConfigurationSystem/Client/CSAPI.py:792-799 | what a commit does to every group first |
| Registry.CheckedAndSorted | src/DIRAC/ConfigurationSystem/Client/CSAPI.py:765-790 | every group lists its registered members, as often as before, in order |
| Registry.CheckAndSortOnce | src/DIRAC/ConfigurationSystem/Client/CSAPI.py:765-790 | doing it again changes nothing |
| Tags.AddTagAddsIt | src/DIRAC/ConfigurationSystem/Client/Utilities.py:138-145 | the tags are then those before and the one added |
| Tags.DropTagDropsIt | src/DIRAC/ConfigurationSystem/Client/Utilities.py:129-136 | the tags are then those before without it |
| Tags.AddTagTwice | src/DIRAC/ConfigurationSystem/Client/Utilities.py:138-145 | adding again changes not even the text |
| Tags.DropTagTwice | src/DIRAC/ConfigurationSystem/Client/Utilities.py:129-136 | nor does dropping again, and dropping undoes adding |
| Tags.TagsAreOrdered | src/DIRAC/ConfigurationSystem/Client/Utilities.py:129-145 | the text is empty or a list of tags in order, each once and none empty |
| QueueSync.SecondTimeNothingChanges | src/DIRAC/ConfigurationSystem/Client/Utilities.py:278-375 | once the changes to a queue are applied none are left, if and only if processors are published or none configured |
| QueueSync.AddedInProduction | src/DIRAC/ConfigurationSystem/Client/Utilities.py:282-289 | a queue that is not configured is left alone exactly if it is not in production |
| QueueSync.ValuesAsPublished | src/DIRAC/ConfigurationSystem/Client/Utilities.py:292-366 | afterwards CPU time and benchmark are as published, each where that is not empty, limits on jobs only where none is configured, processors unless zero |
| QueueSync.TagsFollowProcessors | src/DIRAC/ConfigurationSystem/Client/Utilities.py:335-357 | where the number of processors changes, the queue has the tag for several exactly if it now has several; it is required if asked for; no other tag comes or goes |
| QueueSync.LocalTypeBecomesPool | src/DIRAC/ConfigurationSystem/Client/Utilities.py:347-351 | a queue that comes to have several becomes a pool around what was inside; otherwise its type stays |
| QueueSync.OrganisationIsListed | src/DIRAC/ConfigurationSystem/Client/Utilities.py:367-375 | the organisation is then listed once next to exactly those before; the text stays if it was listed |
| QueueSync.VOIsKept | src/DIRAC/ConfigurationSystem/Client/Utilities.py:364-375 | a virtual organisation that was added is found again, next to those before it |
| QueueSync.Consolidate | src/DIRAC/ConfigurationSystem/Agent/Bdii2CSAgent.py:287-301 | the lists of each section are united, other changes kept |
| QueueSync.EveryVOIsAdded | src/DIRAC/ConfigurationSystem/Agent/Bdii2CSAgent.py:287-301 | in any list of changes, the united list of a section is its old one and every organisation that asked there |
| OneCoreQueues.NamesDiffer | src/DIRAC/ConfigurationSystem/Client/Utilities.py:161-168 | queues of one implementation get different one-core names |
| OneCoreQueues.CopyNameIs | src/DIRAC/ConfigurationSystem/Client/Utilities.py:161-178 | which queues are copied, and the name of each copy by implementation |
| OneCoreQueues.AddOneCoreQueues | src/DIRAC/ConfigurationSystem/Client/Utilities.py:170-185 | the expanded queues; raises exactly if some copy cannot be named, with nothing changed |
| OneCoreQueues.ExpandedIs | src/DIRAC/ConfigurationSystem/Client/Utilities.py:170-185 | every queue keeps its place, under the name of each copy is the last queue with this name, with one processor and otherwise as it was, and everything else stays |
| OneCoreQueues.ExpandedOnce | src/DIRAC/ConfigurationSystem/Client/Utilities.py:170-185 | expanding again changes nothing if and only if of any two queues with copies of one name the later is replaced only where the earlier is |
| OneCoreQueues.OneImplementationSettles | src/DIRAC/ConfigurationSystem/Client/Utilities.py:161-185 | so it changes nothing where those queues are of one implementation |
| OneCoreQueues.ThreeQueuesChange | src/DIRAC/ConfigurationSystem/Client/Utilities.py:161-185 | three queues for which it does change |

## Left out

- CFG trees: the library that reads, writes, compares and merges them is not part of this model; `Cfgs` and `CfgEdits` state its behaviour without order, comments, and names that are option and section at once.
- Aliasing: trees are values, so updates in place of subtrees that two variables share are not modelled; text and compressed form of a tree are inverse to each other by construction.
- Regeneration.NewestRangeSplitsAsRaw: a single width has to divide the largest bucket; otherwise a group may lie across two of these.
- Compaction.SlowCompactionConserves: the rounds are those of an undisturbed compaction, as are those of SlowCompactionKeepsWeeks; RunsConserve has the other writers.
- ConfigurationProtocol.CommitReplacesItsBase: an author who writes the version option by hand is not covered, since that option is all the server compares, nor one whose tree was read before its version was generated.
- ConfigurationProtocol.StepKeepsConsistent: nodes do not read the master between a write and its version, see UnversionedCommit for what they would get; restarts of the master are no steps, see RestartKeepsTree.
- ConfigurationProtocol.NodesAgree: the same holds of its runs; the clock is taken to advance from one version to the next.
- ConfigurationServices.ServiceInterface.Reconcile: kept versions are found by their exact version, not by the pattern match on file names; a kept version always loads.
- The reader/writer lock of ConfigurationData, the choice and order of servers to refresh from, errors of transport and gateways: a refresh may be given up at any step instead.
- InTableRuns.ExactlyOnce: records are taken one by one rather than in jobs of many, the limits on how many are loaded are arbitrary, and one accounting type is modelled.
- DataStoreRuns.RunConserves: a reply that is lost counts as not delivered although the data store may have the records; reading which list is current, appending to a list, cutting a bundle and taking it off are atomic each.
- Registry.CSAPI.AddUser: a user's name is one level of a path; with a slash or outer blanks in it the source makes other sections.
- Registry.CSAPI.ModifyUser: the same holds of it.
- CommandArguments.ListIsRecognised: the characters of a word are those of ASCII.
- Rebucketing.SpanToGranularity: rows with different numbers of fields are added field by field from the first, where the source adds the weight of a row to another field or fails.
- QueueSync.SecondTimeNothingChanges: values derived from the published data alone (CPU time, benchmark, job limits) are inputs, the order of virtual organisations in a list is that of their arrival, and site and computing element options are left out.
- Executors.MindCluster.ProcessTask: what modules make of the task itself (its stub, error text and freeze time), and the connection to the mind, are left out.
- Text is stripped of ASCII blanks only, and sorted by character.
- Deletion and regeneration run with all database writes succeeding; query text, key tables, deletion of old records and the catalog of types are left out.
- The report functions that fill gaps, accumulate and scale (`_fillWithZero`, `_accumulate`, `_divideByFactor`) would add easy members only.
- Hosts, groups and shifters of the registry repeat what users show.
- Float rounding: shares and values are exact.
