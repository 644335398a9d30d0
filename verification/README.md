# Bellows, verified

A Dafny model of the parts of Bellows where a mistake would lose data, hand out
a stale result, or stall a build: the collector of the content-addressed
store, the relay that publishes in the background, transactional restore, the
machine-lease scheduler, the texts that make records portable, and the
validation of cached results. `dafny verify dfyconfig.toml` checks everything.

## What is modelled

**Garbage collection.** `Planner` counts references in arrays and evicts by
recency under an executable-only budget, an overall budget and a minimum
protocol; `PlannerTheorems` and `PlanReport` prove what its plans and reports
promise. `Collection` is the protocol: a collection interleaved, step by step,
with publications, hits and uploads. A candidate is safe because either it was
there when the collector read the records, and then its blobs are in the plan's
reference counts, or a journal line names it, and then the refresh that comes
before the next batch protects its blobs. `Store` ties the store's operations to
the protocol's steps, `PlanToCollection` reads the snapshot and ties the
planner's plans to the plans the protocol allows, and `Journal` and `Recency` show that reading the journal
in pieces and compacting it forget nothing.

**Relay and leases.** `Relay` is one system of small steps: the relay's
requests and background tasks, each with its own program counter, together with
the server's blobs, records and single-flight leases. Any attempt may fail, be
refused, or arrive without the relay hearing of it. `RelayOrder` is the ordering
itself, `RelayProofs` its safety over every run, `RelayProgress` the wake-ups and
the spool accounts, `RelayDrain` that accepted work drains.

**Restore.** `FileTree` is a file system as a map from paths to entries;
`Restore` collapses roots and stages trees, `Swap` installs and rolls back,
`DeclaredOutputs` is the whole operation. Every rename, directory and write may
fail.

**Lease scheduler.** `LeaseQueue` is the grant order, `Scheduler` the state
machine, `SchedulerProofs` its invariant and its runs, `LeaseScheduler` the
object that is updated in place.

**Texts.** `Replace` and `Normalizer` are path portability, `DepInfo`,
`DepInfoProofs` and `DepInfoExamples` dependency files, `DepInfoPaths` the two
together as the program uses them, `LinkCommand` and `LinkRendering` the linker
command line, `Archive` and `ArchiveLayout` the member names of `ar` archives.

**Validation and impact.** `Validation` and `ValidationProofs` are what a compile
records and when the record holds; `Impact` is the downstream closure.

Every lemma switches Dafny's automatic induction off, so that each proof is the
one its body gives.

## Where the code does not do what one might expect

- A text that contains a token, such as the characters of `$WORKSPACE`, does
  not survive normalizing and localizing; `RoundTripExactly` is the exact
  condition.
- A request moved to a position is pushed back by the next one moved to the same
  position if that position lies within the queue, so there the newest goes
  first; beyond the end of the queue the oldest does (`MovedLandWherePut`,
  `TiesExactly`).
- Reading and rewriting dependency files treat some lines differently.
  `LineCommutesExactly` and `PieceCommutesExactly` say for every line whether it
  survives, and `DepInfoExamples` has an input for each way to fail: white space
  before `# env-dep` is lost and an environment dependency made; the words of a
  comment are read and not rewritten; a carriage return before a line's ending
  belongs to a variable when it is read and is dropped when it is rewritten; and
  a copied line may still look continued after continued lines were joined once.
- A token stands for one directory, but may have several spellings. What comes
  back is the spelling chosen for the token, not the one that was written
  (`RoundTripExactly`, `LocalizesToTheChoice`).
- An input whose path only begins with the same characters as a root, such as
  `/work-old/x` beside the root `/work`, is recorded as a host file without
  asking which checkout it belongs to, and is asked when it is validated. If it
  belongs to another checkout the record never validates (`ValidatesAtHome`,
  `NeighbourNeverValidates`).
- A GNU short archive member named `#1` is laid out as `#1/`, which the reader
  takes for a BSD name without a length (`ReadingInvertsLayout`).
- The linker-command parser drops white space other than spaces before an assigned
  name (`ParsingInvertsRendering`).

## Model

| member | source | states |
|---|---|---|
| `Planner.AddUnit` | crates/bellows-core/src/gc.rs:206-220 | adding a record keeps the referrer lists the exact transpose of the records' blob lists, each blob named once per record, digests the walk did not find left out |
| `Planner.EvictionOrder` | crates/bellows-core/src/gc.rs:344-357 | every record exactly once: obsolete candidates first, then least recently used, then snapshot order |
| `Planner.FindOrphans` | crates/bellows-core/src/gc.rs:329-343 | lists exactly the unreferenced blobs past the grace period, counts the younger ones, and subtracts the listed bytes once |
| `Planner.CountExecutableBytes` | crates/bellows-core/src/gc.rs:381-394 | the bytes that evicting every executable would free |
| `Planner.Eviction.Evict` | crates/bellows-core/src/gc.rs:356-380 | one eviction moves every counter from "what evicting this set frees" to the same for the set with the record added; a second eviction of a record changes nothing; no reference count goes below zero |
| `Planner.EvictExecutables` | crates/bellows-core/src/gc.rs:395-404 | stops at the first point in eviction order where the executable-only bytes fit their budget |
| `Planner.EvictToFit` | crates/bellows-core/src/gc.rs:405-411 | stops at the first point where everything fits and the next record is not obsolete |
| `Planner.NewPlan` | crates/bellows-core/src/gc.rs:328-419 | the loops and counters compute the plan that the declarative definition `Planned` describes |
| `PlannerTheorems.MeetsExecutableBudget` | crates/bellows-core/src/gc.rs:395-404 | what survives the whole plan keeps the executable-only bytes within their budget, or no executable survives |
| `PlannerTheorems.ObsoleteAllEvicted` | crates/bellows-core/src/gc.rs:347-411 | every candidate below the minimum protocol is evicted, whatever the budgets |
| `PlannerTheorems.MeetsOverallBudget` | crates/bellows-core/src/gc.rs:405-411 | the final bytes fit, or every record went and only blobs within their grace period are left |
| `PlannerTheorems.EvictsInOrder` | crates/bellows-core/src/gc.rs:395-411 | least recently used first: an evicted record that is no executable precedes every survivor, an evicted executable every surviving executable |
| `PlannerTheorems.EvictsNoMoreThanNeeded` | crates/bellows-core/src/gc.rs:405-411 | had the plan kept the last record of its overall pass, what remains would not fit or an obsolete candidate would stay, unless that record went already to make room for executables |
| `PlannerTheorems.BytesAreConserved` | crates/bellows-core/src/gc.rs:421-434 | bytes before are bytes after, plus bytes freed by evictions, plus bytes of unreferenced blobs |
| `PlannerTheorems.FreesExactlyTheDead` | crates/bellows-core/src/gc.rs:356-380 | a blob is freed exactly if it has referrers and all of them are evicted; it is freed once, by one of them |
| `PlanReport.Buckets` | crates/bellows-core/src/gc.rs:507-545 | per label: records, evicted records, bytes only that label refers to, bytes its evictions freed |
| `PlanReport.RecordsPartition` | crates/bellows-core/src/gc.rs:515-526 | over all labels of a grouping the records add up to all records |
| `PlanReport.EvictedRecordsPartition` | crates/bellows-core/src/gc.rs:515-526 | over all labels the evicted records add up to the plan's evictions |
| `PlanReport.FreedBytesPartition` | crates/bellows-core/src/gc.rs:540-545 | over all labels the freed bytes add up to the plan's freed bytes |
| `Collection.NoCandidateLosesABlob` | crates/bellows-core/src/gc.rs:547-717 | in every state of every run of collections interleaved with publications, hits and uploads, every blob a compiler candidate in the index refers to is in the store |
| `Collection.RunKeepsInv` | crates/bellows-core/src/gc.rs:103-124 | what is known of each candidate at each stage of a collection holds in every reachable state: present since the rotation and planned for, or named by a journal line read or still to be read |
| `Collection.UsedCandidatesStay` | crates/bellows-core/src/gc.rs:634-645 | in every run, a candidate whose use reached the journal stays in the index until the next rotation or until a publication under its own key pushes it out; no record batch evicts it |
| `Collection.OfferedBlobsStay` | crates/bellows-core/src/gc.rs:589-599 | a blob offered again since the collection began is not deleted by a blob batch |
| `Collection.UndisturbedBatchesDoThePlan` | crates/bellows-core/src/gc.rs:547-612 | with nobody else at work the batches, however the plan is cut into them, remove exactly the planned candidates and the planned blobs that are older than the collection |
| `Store.RecentUses.Refresh` | crates/bellows-core/src/gc.rs:679-716 | reads the lines appended since the last call and protects every blob of every index they name, as one step of the protocol |
| `Store.Store.CommitBlob` | crates/bellows-core/src/lib.rs:841-860 | a verified copy already present is kept and refreshed, otherwise the upload takes its place |
| `Store.Store.PutCandidate` | crates/bellows-core/src/lib.rs:897-913 | newest first, one per action key, cut to the limit, followed by its journal line |
| `Store.Store.StoreCandidate` | crates/bellows-server/src/main.rs:479-513 | refused without a trace unless every blob it names is there; otherwise published |
| `Store.Store.EvictOne` | crates/bellows-core/src/gc.rs:621-668 | removes exactly the planned candidates of one record file that were not used since the rotation, and counts them |
| `Store.Store.EvictBatch` | crates/bellows-core/src/gc.rs:560-577 | one batch of record files is one eviction step of the protocol, and the candidates that left are counted |
| `Store.Store.DeleteBatch` | crates/bellows-core/src/gc.rs:578-612 | one batch of blobs is one deletion step: protected and freshly offered blobs are skipped, and deleted and skipped are counted |
| `Store.PutKeepsOneEach` | crates/bellows-core/src/lib.rs:904-911 | publication keeps at most one candidate for each action key |
| `PlanToCollection.ReadSnapshot` | crates/bellows-core/src/gc.rs:181-260 | reading the blobs and then every record file gives a snapshot with a unit for each candidate read, naming every walked blob the candidate refers to |
| `PlanToCollection.PlansMayBeApplied` | crates/bellows-core/src/gc.rs:103-124 | a plan the planner computes satisfies what the protocol demands of plans: whoever refers to a blob it lets go is let go too |
| `PlanToCollection.ReadAndPlan` | crates/bellows-core/src/gc.rs:103-124 | reading and planning together give a plan the collection may apply to what it read |
| `Journal.EntriesConcat` | crates/bellows-core/src/gc.rs:829-846 | whole lines parse independently of what follows them |
| `Journal.Reader.Refresh` | crates/bellows-core/src/gc.rs:679-699 | takes in exactly the whole lines after the offset and moves the offset past them |
| `Journal.ReadingInPiecesIsReadingOnce` | crates/bellows-core/src/gc.rs:672-716 | refreshing at any moments while the journal grows finds the same uses as parsing its whole lines once |
| `Recency.FormattedLineReads` | crates/bellows-core/src/gc.rs:65-80 | a written journal line parses to the entry it was written for |
| `Recency.ReadJournal` | crates/bellows-core/src/gc.rs:800-817 | the newest use of each candidate over every journal file |
| `Recency.CompactJournal` | crates/bellows-core/src/gc.rs:759-797 | the files read are replaced by one line for each surviving candidate whose last use came from the journal |
| `Recency.RotatingKeepsUses` | crates/bellows-core/src/gc.rs:747-755 | rotating the journal loses no use |
| `Recency.RecencySurvives` | crates/bellows-core/src/gc.rs:747-844 | after the journal was rotated, read and compacted, a reading gives every survivor the last use it had before the rotation, joined with the uses in the fresh journal |
| `RelayOrder.OrderLock.Begin` | crates/bellows-cli/src/relay.rs:299-305 | hands out the next sequence number and opens it |
| `RelayOrder.OrderLock.Finish` | crates/bellows-cli/src/relay.rs:311-318 | closes the number, then moves the version on |
| `RelayOrder.OrderLock.HasPassed` | crates/bellows-cli/src/relay.rs:320-327 | looking only at the smallest open number decides whether every number below the horizon is closed |
| `RelayOrder.PassedStaysForever` | crates/bellows-cli/src/relay.rs:286-337 | a horizon that has passed never becomes open again |
| `LeaseTable.Leases.Acquire` | crates/bellows-server/src/main.rs:1019-1049 | expired leases go first; a running one makes the caller wait and is not changed; otherwise the caller owns the key for the clamped time |
| `LeaseTable.Leases.Release` | crates/bellows-server/src/main.rs:1051-1070 | only the token a lease was given with removes it |
| `RelayProofs.RunKeepsInv` | crates/bellows-cli/src/relay.rs:479-694 | the bookkeeping of uploads, records, requests, releases and leases agrees in every reachable state |
| `RelayProofs.RecordsFollowTheirBlobs` | crates/bellows-cli/src/relay.rs:645-657 | when a record is sent, each digest acknowledged before the record arrived has a finished upload begun before its horizon: it is on the server, or that upload failed |
| `RelayProofs.SingleFlight` | crates/bellows-server/src/main.rs:1019-1070 | a key never has two owners whose leases neither expired nor were released |
| `RelayProofs.NextOwnerFindsTheRecords` | crates/bellows-cli/src/main.rs:2228-2261 | if an unexpired lease no longer stands, its owner gave it up and every record accepted from that owner is answered, the successful ones being on the server |
| `RelayProofs.ReleasesFollowEverything` | crates/bellows-cli/src/relay.rs:650-657 | a release on its way follows every blob and every record accepted before it |
| `RelayProgress.StepKeepsAwake` | crates/bellows-cli/src/relay.rs:320-337 | no waiter sleeps through its wake-up: one whose condition holds at its version is about to be told by an item that left |
| `RelayProgress.StepKeepsBalance` | crates/bellows-cli/src/relay.rs:522-566 | the spool counters stay exactly the accepted uploads not yet subtracted, and every permit is free or held |
| `RelayProgress.SubtractionsNeverUnderflow` | crates/bellows-cli/src/relay.rs:563-564 | each subtraction finds at least its own share still counted |
| `RelayDrain.RunStaysHealthy` | crates/bellows-cli/src/relay.rs:479-694 | every reachable state is awake and balanced |
| `RelayDrain.NeverStuck` | crates/bellows-cli/src/relay.rs:645-694 | while any upload, record or release is left, some background task can move |
| `RelayDrain.PutsAreNotForgotten` | crates/bellows-cli/src/relay.rs:479-487 | once uploads have drained, every upload waiting for spool room can go on |
| `RelayDrain.TasksLessenWork` | crates/bellows-cli/src/relay.rs:576-694 | every move of a task lessens the work left, in the order uploads, records, releases |
| `RelayDrain.WorkDrains` | crates/bellows-cli/src/relay.rs:522-694 | once nothing more is accepted, all accepted work drains, whichever tasks move first, however their attempts end, and whatever the server, the clock, other runners and unfinished requests do meanwhile |
| `FileTree.MovedTrees` | crates/bellows-cli/src/restore.rs:77-88 | after a rename the tree is at the target and nothing is at the source |
| `FileTree.MovedElsewhere` | crates/bellows-cli/src/restore.rs:77-88 | a rename changes no tree apart from its two paths |
| `Restore.Collapse` | crates/bellows-cli/src/restore.rs:22-33 | the kept roots lie in none of each other and cover every declared root |
| `Restore.Stage` | crates/bellows-cli/src/restore.rs:49-67 | a staged tree holds exactly the record's files below its root and the directories they need |
| `Swap.InstallOne` | crates/bellows-cli/src/restore.rs:77-88 | a replacement's flags say exactly how far its two renames got |
| `Swap.RollbackOne` | crates/bellows-cli/src/restore.rs:95-109 | the previous tree is at its destination again, or still in the staging directory |
| `Swap.Install` | crates/bellows-cli/src/restore.rs:75-91 | wherever a rename fails, every replacement is as its flags say and nothing else changed |
| `Swap.Rollback` | crates/bellows-cli/src/restore.rs:92-125 | after rolling back in reverse, each destination has its previous tree, or its kept staging directory has it |
| `DeclaredOutputs.ValidateOutputRoots` | crates/bellows-core/src/lib.rs:536-557 | allowed exactly if no output is inside the state directory or overlaps an input |
| `DeclaredOutputs.MakeParents` | crates/bellows-cli/src/main.rs:5559-5583 | only missing directories above the destination are made |
| `DeclaredOutputs.StageAll` | crates/bellows-cli/src/restore.rs:44-74 | staging complete trees for every root leaves every destination as it was, whether it succeeds or fails |
| `DeclaredOutputs.RestoreOutputs` | crates/bellows-cli/src/restore.rs:15-127 | all or nothing: every root holds exactly the record's files, or every root its previous tree, or, if rolling back failed too, the previous tree is in a kept staging directory; inputs are never touched |
| `LeaseQueue.OrderIsAPermutation` | crates/bellows-lease/src/scheduler.rs:134-167 | a machine's order holds each of its waiting requests exactly once |
| `LeaseQueue.UnmovedKeepTheirOrder` | crates/bellows-lease/src/scheduler.rs:134-156 | requests nobody moved are sorted by priority, merge-queue rank, arrival and id |
| `LeaseQueue.MovedLandWherePut` | crates/bellows-lease/src/scheduler.rs:157-166 | the k-th moved request stands at min(position, unmoved + k) exactly if the next moved request does not have the same position within the queue |
| `LeaseQueue.TiesExactly` | crates/bellows-lease/src/scheduler.rs:157-166 | of two requests moved to one position the one with the larger id goes first exactly if the position was within the queue when the first was inserted; otherwise the one with the smaller id does |
| `LeaseQueue.OrderFor` | crates/bellows-lease/src/scheduler.rs:134-167 | the filter, sort and insert loops compute that order |
| `Scheduler.TokensNameTheirId` | crates/bellows-lease/src/scheduler.rs:277-283 | equal tokens belong to equal ids, whatever the seeds |
| `SchedulerProofs.RunKeepsInv` | crates/bellows-lease/src/scheduler.rs:96-299 | the invariant of queue, holders, nested runs, unclaimed grants and tokens holds over every run |
| `SchedulerProofs.OnePlaceEach` | crates/bellows-lease/src/scheduler.rs:96-299 | in every reachable state an id waits, holds or runs nested, never two of these; each holder is filed under its own machine; an unclaimed grant belongs to its machine's holder |
| `SchedulerProofs.ReleasedIsGone` | crates/bellows-lease/src/scheduler.rs:285-299 | after a release the id is nowhere |
| `SchedulerProofs.ReleasedForever` | crates/bellows-lease/src/scheduler.rs:285-299 | a released id never comes back in any run |
| `SchedulerProofs.ClaimedOnce` | crates/bellows-lease/src/scheduler.rs:273-275 | no run claims a grant twice |
| `SchedulerProofs.SessionsNeverShareTokens` | crates/bellows-lease/src/scheduler.rs:277-283 | no two sessions of a run, however far apart, have the same token |
| `SchedulerProofs.GrantedAllSettles` | crates/bellows-lease/src/scheduler.rs:214-270 | a call to grant leaves no free, unpaused, known machine with a request it could grant |
| `SchedulerProofs.ChoosesTheFirst` | crates/bellows-lease/src/scheduler.rs:225-236 | the granted request is the first in order that the reservation admits |
| `LeaseScheduler.MachineLeases.Admit` | crates/bellows-lease/src/scheduler.rs:96-131 | a request is refused, runs nested in the session that holds its machine, or is queued, and the state moves accordingly |
| `LeaseScheduler.MachineLeases.GrantOne` | crates/bellows-lease/src/scheduler.rs:216-267 | one machine's turn grants the chosen request, if there is one, and records holder, token and unclaimed grant |
| `LeaseScheduler.MachineLeases.Grant` | crates/bellows-lease/src/scheduler.rs:214-270 | goes through the machines and leaves each of them settled |
| `LeaseScheduler.MachineLeases.Claim` | crates/bellows-lease/src/scheduler.rs:273-275 | gives out an unclaimed grant once |
| `LeaseScheduler.MachineLeases.Release` | crates/bellows-lease/src/scheduler.rs:285-299 | removes the id everywhere and returns the holder it freed |
| `LeaseScheduler.MachineLeases.Reorder` | crates/bellows-lease/src/scheduler.rs:309-317 | sets the position of the waiting request with the id, if any |
| `LeaseScheduler.MachineLeases.Preempt` | crates/bellows-lease/src/scheduler.rs:339-347 | marks the holder with the id, if any |
| `Replace.ReplaceOne` | crates/bellows-core/src/lib.rs:1395-1413 | the searching loop is leftmost non-overlapping replacement |
| `Replace.ReplaceBytes` | crates/bellows-core/src/lib.rs:1395-1413 | the rules apply one after the other, empty patterns passed over |
| `Normalizer.NewIsOrdered` | crates/bellows-core/src/lib.rs:1302-1324 | every non-empty directory once, longest first |
| `Normalizer.EachRootHasItsToken` | crates/bellows-core/src/lib.rs:1336-1342 | however directories nest and however many spellings they have, each normalizes to exactly its own token |
| `Normalizer.LocalizesAllAtOnce` | crates/bellows-core/src/lib.rs:1344-1350 | replacing the tokens one after the other is replacing them all at once, each by its chosen spelling |
| `Normalizer.LocalizationsAreSpellings` | crates/bellows-core/src/lib.rs:1356-1370 | each token localizes once, to one of its own directories |
| `Normalizer.LocalizesToTheChoice` | crates/bellows-core/src/lib.rs:1352-1370 | that directory is the first spelling of the token, or, if the first is a verbatim Windows one, the first ordinary one after it |
| `Normalizer.RoundTripExactly` | crates/bellows-core/src/lib.rs:1336-1370 | normalizing and then localizing gives the text with each of its directories in the spelling chosen for its token, and nothing else changed, exactly if no token occurs in it |
| `Normalizer.ComesBackExactly` | crates/bellows-core/src/lib.rs:1336-1370 | with one spelling for each token the text itself comes back, exactly if no token occurs in it |
| `Normalizer.PlainTextComesBack` | crates/bellows-core/src/lib.rs:1336-1370 | for a text without dollar signs that is always so |
| `Normalizer.TokenDoesNotComeBack` | crates/bellows-core/src/lib.rs:1336-1370 | a text that is a token does not come back |
| `Normalizer.NormalizeBytes` | crates/bellows-core/src/lib.rs:1372-1381 | the byte loop computes the same text |
| `Normalizer.LocalizeBytes` | crates/bellows-core/src/lib.rs:1383-1392 | the byte loop computes the same text |
| `DepInfo.SplitMakefileWords` | crates/bellows-core/src/lib.rs:1474-1495 | words end at white space; only a backslash before a space escapes |
| `DepInfo.RewriteDepInfo` | crates/bellows-core/src/lib.rs:1441-1472 | the loop rewrites each line of the joined text |
| `DepInfo.ParseDepInfo` | crates/bellows-core/src/lib.rs:1415-1437 | the loop collects the files and environment dependencies of every line |
| `DepInfoProofs.JoinedReads` | crates/bellows-core/src/lib.rs:1447-1452 | words written with escaped spaces read back as they were |
| `DepInfoProofs.LineCommutesExactly` | crates/bellows-core/src/lib.rs:1441-1472 | a rewritten line has the rewritten dependencies and the same environment dependency exactly if it is a comment that is an environment dependency or whose words do not change, or another line whose new targets begin no environment dependency |
| `DepInfoProofs.PieceCommutesExactly` | crates/bellows-core/src/lib.rs:1441-1472 | the same for a line with its ending, where an environment dependency must end in no stray carriage return |
| `DepInfoProofs.ParsingCommutesWithRewriting` | crates/bellows-core/src/lib.rs:1415-1472 | reading a rewritten file is reading its rewritten lines; line by line it gives the rewritten files and the same environment dependencies exactly if every line is kept, and then as a whole |
| `DepInfoExamples.IndentedCommentBecomesEnvDep` | crates/bellows-core/src/lib.rs:1453-1458 | targets rewritten to a number sign and what follows it in the mark make an environment dependency that was not there |
| `DepInfoExamples.CommentKeepsItsWords` | crates/bellows-core/src/lib.rs:1427-1434 | the words of a comment are read and not rewritten |
| `DepInfoExamples.StrayReturnIsDropped` | crates/bellows-core/src/lib.rs:1445-1469 | a carriage return that ends no line is read as part of a variable and lost by rewriting |
| `DepInfoExamples.JoiningLeavesAContinuation` | crates/bellows-core/src/lib.rs:1442-1442 | joining continued lines once can leave a copied line that the next reading joins again |
| `DepInfoPaths.PortableDepInfoReads` | crates/bellows-cli/src/main.rs:3735-3748 | the portable dependency file names the portable paths of the files of a plain one |
| `DepInfoPaths.LocalDepInfoReads` | crates/bellows-cli/src/main.rs:3735-3748 | the localized dependency file names the localized paths of the files of a plain one |
| `DepInfoPaths.PlainTextStays` | crates/bellows-cli/src/main.rs:3735-3748 | a rewriting that keeps usable words usable leaves a plain file plain |
| `DepInfoPaths.DepInfoComesBack` | crates/bellows-cli/src/main.rs:3735-3748 | made portable and local again, a plain dependency file names the same files, each in the spelling chosen for its directory, and the same environment dependencies |
| `LinkCommand.ReadQuotedLoop` | crates/bellows-cli/src/link.rs:61-99 | the loop reads the string up to its closing quote, or fails where the escapes are wrong |
| `LinkCommand.ParseLinkCommand` | crates/bellows-cli/src/link.rs:26-59 | the loop parses assignments, program and arguments, or refuses |
| `LinkRendering.DebugSpells` | crates/bellows-cli/src/link.rs:23-25 | what the standard rendering writes for a character is one of the spellings the parser accepts for it |
| `LinkRendering.ParsingInvertsRendering` | crates/bellows-cli/src/link.rs:26-99 | for any environment, program and arguments, spelled in any accepted way, the parser returns that command without white space before assigned names, so exactly that command if and only if there is none |
| `Archive.ReadMemberNames` | crates/bellows-cli/src/archive.rs:10-63 | the loop ends on any bytes, stays inside them, and reads the members the definition describes |
| `ArchiveLayout.LaidReads` | crates/bellows-cli/src/archive.rs:17-61 | an archive is read member by member, with padding and a rest shorter than a header |
| `ArchiveLayout.MemberReads` | crates/bellows-cli/src/archive.rs:33-59 | each kind of member adds its name, becomes the long-name table, or adds nothing; only a GNU short name `#1` is refused |
| `ArchiveLayout.ReadingInvertsLayout` | crates/bellows-cli/src/archive.rs:10-63 | for any sequence of members the reader returns exactly the names of those that are no tables, in order, unless a GNU short name is `#1`; then it refuses the archive |
| `Impact.AddDependents` | crates/bellows-cli/src/main.rs:5854-5863 | the dependents of one package that were not found before are found and put in the frontier |
| `Impact.Downstream` | crates/bellows-cli/src/main.rs:5848-5865 | the worklist ends, and finds the least set with the seeds that is closed under dependents, cycles included |
| `Impact.LeastClosedIsReachability` | crates/bellows-cli/src/main.rs:5848-5865 | in that set is exactly what reaches a seed by dependencies |
| `Impact.CompareSnapshots` | crates/bellows-cli/src/main.rs:5825-5879 | changed sources, changed surfaces, changes that stay inside, and everything a changed surface can affect |
| `Validation.CaptureOutputs` | crates/bellows-cli/src/main.rs:4019-4150 | records every input under its portable or its host name, every variable, the pins of embedded roots and the width, each once, or refuses |
| `Validation.ValidateCandidate` | crates/bellows-cli/src/main.rs:3134-3227 | the early-return loops decide whether every recorded input would be recorded the same now |
| `ValidationProofs.PathComesBack` | crates/bellows-cli/src/main.rs:3196-3198 | a later compile with the same directories finds a portable input under the spelling chosen for its directory |
| `ValidationProofs.EnvironmentIsRecorded` | crates/bellows-cli/src/main.rs:4111-4150 | what is recorded of the environment is exactly one entry for each variable, applicable pin and the width |
| `ValidationProofs.ValidatesExactlyWhereItAgrees` | crates/bellows-cli/src/main.rs:3134-3227 | a captured candidate validates in another state exactly if that state agrees on every file, variable and pin recorded, and on the width if it matters; of two spellings of one file the first is recorded |
| `ValidationProofs.ValidatesAtHome` | crates/bellows-cli/src/main.rs:3134-3227 | where it was captured it validates exactly if each input is found unchanged under its chosen spelling; if the spellings of a directory lead to one directory, exactly if none of its host files belongs to another checkout |
| `ValidationProofs.OneSpellingIsAlike` | crates/bellows-core/src/lib.rs:1356-1370 | with one spelling for each token the spellings of a directory trivially lead to one directory |
| `ValidationProofs.NeighbourNeverValidates` | crates/bellows-cli/src/main.rs:4021-4056 | a file of `/work-old` read by a compile in `/work` is recorded, and the record does not validate in the very state it was captured in |

## Left out

- HTTP, TLS, timeouts, retry delays and authorization: a request is a step with any outcome.
- Processes, symbolic links, file permissions beyond the executable flag, fsync and Windows spellings of paths, except the preference among spellings in `Normalizer`.
- JSON and BLAKE3: records are values, and digests stand for what they digest.
- Collection of declared and archive records: they are not named in the journal, so the protocol's theorem is about compiler candidates; the planner covers all kinds.
- Publication into a store that no server guards, and the refresh of a blob's time by a HEAD request, which hold no lock.
- Quarantine of undecodable records, journal lines torn by a crash, appends racing the rename of the journal, two collections at once, and a failure of the journal append after a record was written.
- Reading the record files one by one may meet an older listing of the directory than the model's; each record file is still read at its own moment.
- Sizes are unbounded numbers: saturating sums of file sizes above 2^64 and 32-bit indexes are not modelled.
- The cut of the report's crate list to the largest entries; the groupings are proved before it.
- Relayed use marks and the other requests the relay holds back for earlier blobs: they wait as releases do and change no record or lease.
- RelayProofs.SingleFlight: assumes that one client does not get the same key twice at one reading of the clock, since the token is made of client, key and time.
- RelayProofs.NextOwnerFindsTheRecords: speaks of leases given up, not of leases that ran out of time, and of the records accepted before their owner asked to release; an owner publishes before it releases, and one with relayed records releases through the relay.
- DeclaredOutputs.RestoreOutputs: assumes that the random names of staging directories occur nowhere yet; the lock file and paths given as text are not part of it.
- DeclaredOutputs.StageAll: a tree is built first and then put into the staging directory, so a half-written staging directory is not seen.
- Scheduler.CiActive: and the setters for pauses, reservations, continuous-integration jobs and merge-queue positions are one step that sets them to anything.
- That a nested run's session still holds: a session's release leaves its nested runs.
- The lease daemon's sockets and client, and whether each ended connection releases its lease.
- Archive.ReadMemberNames: decoding bytes as text is a parameter; the layout theorem asks of it only that plain ASCII is read as it stands.
- DepInfoProofs.ParsingCommutesWithRewriting: asks that no rewritten word of the text is empty, holds white space other than spaces or ends in a backslash, and that no rewritten target ends in a colon; what happens to other words is not described.
- DepInfoPaths.DepInfoComesBack: asks that no target of the file begins with a number sign, since such a line would be a comment when it is rewritten again.
- LinkRendering.DebugSpells: which characters count as printable is a parameter.
- The order of a record's entries: the first entry of each name is kept, as sorting and removing duplicates does, but entries are not sorted.
- Validation.CaptureOutputs: which outputs embed which root, which files changed during the compile and the well-formedness of a manifest are parameters; discovery of linker inputs is not modelled.
- Terminal output, reasons given in diagnostics, command-line parsing, remote execution, environment allow-lists, demo crates and the latency proxy.
