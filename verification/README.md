# euvieouvi: a verified model of its synchronization core

euvieouvi keeps a local SQLite catalog of media and watch history in step with two servers, Plex and
Jellyfin. This project models the parts of it in which an incremental, concurrent or crash-prone form has
to agree with a simple one, and proves that it does, or states exactly when it does not.

Each committed transaction is one step. Tables are maps, sets or sequences; dates are integers
(microseconds where a two-minute window matters); servers, clocks and remote calls are parameters.
Code that updates rows in loops is written as methods over classes, each proved against a specification;
the theorems are about those specifications and about whole runs. What the operations compute is also told
a second time, from the rows alone and without the functions that compute it, and the two are proved equal.

| file | what it holds |
|---|---|
| `UnionFind.dfy`, `LinkedSets.dfy` | the two union-find variants, against connected components |
| `Catalog.dfy`, `Grouping.dfy`, `SharedCards.dfy`, `GroupKeys.dfy` | the catalog tables, which items share a card, as computed and as told by ids and titles, and the unique card keys |
| `Playback.dfy`, `Hierarchy.dfy`, `Projection.dfy`, `CardContents.dfy` | the algebra of playback facts, walks to the root, the loops that fill the cards, and what the cards say in terms of the rows |
| `Refresh.dfy`, `Store.dfy`, `Serving.dfy`, `Staleness.dfy`, `Evidence.dfy` | incremental refresh against full rebuild, the dirty-flag protocol of the triggers and of serving, the runs on which it fails, and which writes of file paths it survives |
| `WatchStates.dfy`, `StateHistory.dfy`, `Containers.dfy`, `EventReplay.dfy`, `EventStates.dfy` | every writer of watch states, what they bring to a row over time, derived container states, stored events, and what these mean for the states |
| `ItemGroups.dfy`, `MatchEvidence.dfy`, `Propagation.dfy`, `PassEffects.dfy`, `IncrementalScope.dfy` | matching groups and the evidence for them, the propagation of states between the servers and its effect on every row, and its incremental passes |
| `Merge.dfy`, `MergeOrigins.dfy`, `Reconcile.dfy`, `Duplicates.dfy` | folding items across all tables without loss or invention, the validity of a history of merges, and the reconciliation run |
| `AsyncQueue.dfy`, `TaskFates.dfy`, `JobQueue.dfy`, `RunOutcomes.dfy` | the instant-update queue and the leased job queue, each with what becomes of its rows |
| `Scan.dfy` | the checkpointed library scan and its watermarks |
| `Numbers.dfy` | powers of two and decimal numerals |

`dafny verify dfyconfig.toml` checks everything.

## What the proofs say about the code

Most properties hold as the code and its comments promise. These do not hold without a condition, and the
model proves which:

* The activity trigger keeps only the marker `identity`; it overwrites `full`. A playback write after a
  manual match or a reconciliation can therefore turn a due rebuild into a refresh
  (`Store.StaleMarkerIsLost`, `Store.PlaybackIsSafeExceptUnderStale`).
* The refresh leaves `completed_child_count` of a show stale when episodes share a card but their shows do
  not (`Refresh.RefreshRightIffNoStrayChildren`, `Staleness.StrayShowGoesStale`). All other fields are right
  (`Store.CleanMeansRebuilt`).
* No trigger watches file paths, so a projection can stay clean although its cards would change. It stays
  right exactly under writes that give or take no pair of possible twins a conflict of files
  (`Evidence.PathsKeepFreshIff`, `Evidence.LatePathsAreMissed`).
* Maintenance and reconciliation jobs finish without looking at their lease or at the status of the run. So a
  worker that lost its lease closes the run of another (`JobQueue.InlineFinishRespectsLeaseIff`,
  `JobQueue.InlineFinishClosesAnothersRun`) or overwrites its outcome (`JobQueue.InlineFinishFollowsIff`,
  `JobQueue.InlineFinishOverwritesOutcome`).
* Job rotation relies on a clock that is not behind the runs of a job when one is submitted
  (`JobQueue.NeverRotatedAwayIff`, `JobQueue.RotationMayDeleteActive`).
* Positions stored for items a server no longer has can block the convergence of propagation
  (`Propagation.OneRoundConvergesIff`, `Propagation.BlockedGroupDoesNotConverge`), and the mode that decides
  both directions at once never settles on equal positions (`Propagation.BothWaysNeverSettles`).
* An incremental pass forms groups among the changed items and those that share an id with them. A group that
  is held together by files can be cut, and its completion is not sent by that pass or any other until the next
  full one (`IncrementalScope.ScopedPassIsFullPassIff`, `IncrementalScope.CompletionIsLost`).
* A resumed scan takes its watermark from the time of the resume (`Scan.ResumedScanMissesNothingIff`,
  `Scan.ResumedScanMissesChange`).
* The last history page takes the cursor away before the derived states and the watermark are stored, so a
  scan that dies in between starts over, and attempts of equal length may do so for ever
  (`Scan.EqualBudgetsFinishIff`, `Scan.LongerStridesMayNeverFinish`).
* A repeated event report with another date can bring two events closer than two minutes
  (`EventReplay.MovedEventStaysSpacedIff`, `EventReplay.MovedEventBreaksSpacing`).
* The completion date of a watch state can go back (`WatchStates.CompletionDateKeptIff`,
  `WatchStates.EachWriterCanGoBack`).
* Seasons are merged by number without looking at their sources, so a surviving season may stand for two that
  one server lists (`Duplicates.SplitSeasonsComeTogether`), exactly when two that share a live source are folded
  (`Duplicates.FoldSeason`, `Reconcile.SeasonsApartIff`); no other kind can, split shows aside.

## Model

| member | source | states |
|---|---|---|
| `UnionFind.DisjointSets.Find` | src/euvieouvi/sync/catalog_projection.py:602-608 | the walk with path halving ends, answers exactly the root of the class, and leaves the partition as it was |
| `UnionFind.DisjointSets.Join` | src/euvieouvi/sync/catalog_projection.py:610-614 | merges exactly the classes of its two arguments under the smaller root; no other value changes class |
| `UnionFind.DisjointSets.constructor` | src/euvieouvi/sync/catalog_projection.py:599-600 | every value starts as its own class |
| `UnionFind.TrackedRootEndsTheWalk` | src/euvieouvi/sync/catalog_projection.py:602-608 | the recorded root is where the walk along the parents ends, and it is no greater than the value |
| `UnionFind.JoinRepresents` | src/euvieouvi/sync/catalog_projection.py:610-614 | joining two values is adding an edge: the classes stay the connected components of all pairs joined so far |
| `UnionFind.RootIsLeastOfComponent` | src/euvieouvi/sync/catalog_projection.py:602-614 | in every forest the class keeps, the root is the least member of its connected component |
| `UnionFind.RootsDependOnEdgesOnly` | src/euvieouvi/sync/catalog_projection.py:602-614 | two forests over the same pairs have the same roots, whatever the order of the joins |
| `Catalog.ReferencesTold` | src/euvieouvi/sync/catalog_projection.py:103-122 | from the rows: the servers an item is known to or live on, its live files, whether it has a stable id, is known to Plex, and has a card |
| `Grouping.SafeIdentityGroup` | src/euvieouvi/sync/catalog_projection.py:124-137 | true exactly when every two members are compatible: no two confirmed ids, overlapping files where both have some, disjoint live sources, every member known to a source |
| `Grouping.IdentityBuckets` | src/euvieouvi/sync/catalog_projection.py:139-154 | lists exactly the catalog items that carry a given stable id, per kind, each once |
| `Grouping.TitleBuckets` | src/euvieouvi/sync/catalog_projection.py:160-166 | lists exactly the items without a stable id that share kind, title, year and (for episodes, albums, tracks) parent |
| `Grouping.JoinCatalog` | src/euvieouvi/sync/catalog_projection.py:114-170 | after all safe buckets were joined the classes are the connected components of the relation 'shares a safe bucket' |
| `Grouping.StarsRepresentLinks` | src/euvieouvi/sync/catalog_projection.py:155-170 | joining each bucket to its first member gives the same components as linking all pairs of the bucket |
| `Grouping.CandidateGroups` | src/euvieouvi/sync/catalog_projection.py:172-174 | every item is listed once, under the root of its class |
| `Grouping.ChooseCanonical` | src/euvieouvi/sync/catalog_projection.py:185-205 | picks the member that comes before every other: confirmed match, then known to Plex, then smallest id |
| `Grouping.AssignCards` | src/euvieouvi/sync/catalog_projection.py:83-207 | the whole grouping pass computes the membership table as a function of the tables alone, for any listing order of the rows |
| `Grouping.GroupsAreSafeClasses` | src/euvieouvi/sync/catalog_projection.py:172-183 | the groups partition the catalog; each is of one kind, with pairwise disjoint live sources, at most one confirmed id and overlapping files |
| `Grouping.CanonicalStandsForItself` | src/euvieouvi/sync/catalog_projection.py:194-207 | the canonical item is a member of the group it stands for and has the same kind |
| `Grouping.ConnectedStaysInCatalog` | src/euvieouvi/sync/catalog_projection.py:139-170 | links never leave the catalog and never cross kinds |
| `Grouping.ComponentsAgree` | src/euvieouvi/sync/catalog_projection.py:172-183 | components are classes: every member of a component has that same component |
| `SharedCards.NamesakesShareIff` | src/euvieouvi/sync/catalog_projection.py:158-183 | two items without a stable id share a card if and only if they agree in kind, title, year and, for episodes, albums and tracks, parent, and all items that agree with them are pairwise compatible |
| `SharedCards.RelativesShare` | src/euvieouvi/sync/catalog_projection.py:139-183 | an item with a stable id shares a card only with items of its kind that a chain of equal stable ids leads to, and with all of these if they are pairwise compatible; never with an item that has none |
| `SharedCards.CardIsPreferred` | src/euvieouvi/sync/catalog_projection.py:185-193 | the card is confirmed if any of its items is, known to Plex if any of these is, and has the smallest id among those |
| `SharedCards.CompatibleIff` | src/euvieouvi/sync/catalog_projection.py:124-137 | two items may share a card if and only if they have no two confirmed ids, no live files without a common one, no server that lists both, and each is known to one |
| `GroupKeys.FirstIdentity` | src/euvieouvi/sync/catalog_projection.py:208-215 | finds the identity that comes before all others by provider priority and then by id |
| `GroupKeys.FirstIsPreferred` | src/euvieouvi/sync/catalog_projection.py:208-215 | a TMDB id if there is one, else a TVDB, else an IMDb id, and of one provider the smallest text |
| `GroupKeys.PlainKeyIff` | src/euvieouvi/sync/catalog_projection.py:216-225 | two cards have one plain key if and only if they are of one kind and have one first identity, or none and the same title, year and parent |
| `GroupKeys.AssignKeys` | src/euvieouvi/sync/catalog_projection.py:194-232 | for every catalog and every order of the groups, all group keys are pairwise different, given an injective hash and texts without NUL |
| `GroupKeys.KeyFor` | src/euvieouvi/sync/catalog_projection.py:217-231 | one more key differs from every key already given, although the suffixed key is not compared with them |
| `GroupKeys.DifferentCardsCollideOnlyPlain` | src/euvieouvi/sync/catalog_projection.py:217-231 | a suffixed key equals neither a plain nor a suffixed key of any other card |
| `GroupKeys.PlainIsNotSuffixed` | src/euvieouvi/sync/catalog_projection.py:217-231 | no card's plain key parts are another card's parts followed by an item id |
| `GroupKeys.JoinIsInjective` | src/euvieouvi/sync/catalog_projection.py:217-230 | parts without NUL can be recovered from their NUL-joined text |
| `Numbers.DecimalIsInjective` | src/euvieouvi/sync/catalog_projection.py:226-230 | different item ids are written differently |
| `Playback.TallyUnion` | src/euvieouvi/sync/catalog_projection.py:236-283 | the aggregate over disjoint sets of items is the combination of their aggregates |
| `Playback.TallyConcat` | src/euvieouvi/sync/catalog_projection.py:236-283 | the aggregate over rows read one batch after another is the combination of the batches |
| `Playback.TallyIsItemwise` | src/euvieouvi/sync/catalog_projection.py:236-283 | two playback tables that agree item by item agree on every set of items |
| `Playback.SplicedRows` | migrations/versions/20260928_0025_incremental_catalog_activity.py:57-78 | replacing a stretch of rows changes the aggregates of only the items those rows name |
| `Hierarchy.ChainIsLine` | src/euvieouvi/sync/catalog_projection.py:285-293 | on a forest of bounded depth the guarded walk visits exactly what a walk of bounded length visits |
| `Hierarchy.TargetsStayReachable` | src/euvieouvi/sync/catalog_projection.py:404-437 | walks restricted to the loaded rows still reach every target the full walk reaches |
| `Hierarchy.NearestShowIsNearest` | src/euvieouvi/sync/catalog_projection.py:642-656 | the search for the nearest show is the bounded search |
| `Hierarchy.NearestInTreeIsNearest` | src/euvieouvi/sync/catalog_projection.py:642-656 | a show found among fewer rows is the nearest show among all rows |
| `Hierarchy.TargetShowStaysNearest` | src/euvieouvi/sync/catalog_projection.py:404-437 | a nearest show that is a target is still found when only the rows below targets are loaded |
| `Projection.AddEvents` | src/euvieouvi/sync/catalog_projection.py:234-256 | per card: number, first and last of the completed events of its items; per item: its latest event |
| `Projection.AddStates` | src/euvieouvi/sync/catalog_projection.py:258-283 | adds the watch states: reported counts never lower the counted ones, unfinished positions only, both dates; per item its latest playback |
| `Projection.SpreadOne` | src/euvieouvi/sync/catalog_projection.py:285-293 | one walk dates exactly the cards of the items it meets, each at least as late as before |
| `Projection.SpreadActivity` | src/euvieouvi/sync/catalog_projection.py:285-293 | every card's last playback is the latest over all items from which the walk reaches it |
| `Projection.FindShow` | src/euvieouvi/sync/catalog_projection.py:642-656 | the loop finds exactly the nearest show of the chain and stops on cycles |
| `Projection.GroupEpisodes` | src/euvieouvi/sync/catalog_projection.py:314-323 | per show card: the distinct cards of its available episodes |
| `Projection.CountChildren` | src/euvieouvi/sync/catalog_projection.py:324-328 | child and completed-child counts of every show card and nobody else's |
| `Projection.Summarise` | src/euvieouvi/sync/catalog_projection.py:234-328 | the whole computation equals one specification, for the rebuild (all rows) and for the refresh (loaded rows, impacted cards, stored counts) |
| `Projection.TallyGrows` | src/euvieouvi/sync/catalog_projection.py:246-256 | the aggregate of a card changes by one item's group exactly when the item is shown by that card |
| `Projection.JudgedAlike` | src/euvieouvi/sync/catalog_projection.py:560-570 | a child card counts as completed by its recomputed count, else by the stored one |
| `CardContents.RebuildIffTold` | src/euvieouvi/sync/catalog_projection.py:234-361 | a rebuild stores one entry per card, and each field is what the rows say: the larger of the number of completed events and the greatest count reported for a completed item, the earliest and latest of the completion dates, the latest playback of the card's items and of everything below them, the greatest unfinished position, the children, those of them that were ever completed, and the availability; and nothing else is a rebuild |
| `CardContents.ActivityFacts` | src/euvieouvi/sync/catalog_projection.py:234-283 | the same for the facts of any set of items |
| `CardContents.WalkVisitsAbove` | src/euvieouvi/sync/catalog_projection.py:285-293 | the walk visits exactly what is above an item, cycles or not |
| `CardContents.NearestShowIsFirst` | src/euvieouvi/sync/catalog_projection.py:642-656 | the search finds exactly the first show on the way up, cycles or not |
| `Refresh.RefreshIsRebuild` | src/euvieouvi/sync/catalog_projection.py:364-595 | incremental equals full: refreshing a rebuild of the old tables yields, for every card and every field, the rebuild of the new tables, when only dirty items changed, depth is at most four and no stray child exists |
| `Refresh.RefreshAgreesWithRebuild` | src/euvieouvi/sync/catalog_projection.py:364-595 | from a projection right but for the completed children of some shows the refresh makes one right but for those it did not recompute and those with a stray child; every other field is right without any alignment hypothesis, refresh after refresh |
| `Refresh.RefreshRightIffNoStrayChildren` | src/euvieouvi/sync/catalog_projection.py:537-570 | the refresh is right for every change of the dirty items if and only if no untouched show has a child card with a dirty member |
| `Refresh.StrayChildGoesStale` | src/euvieouvi/sync/catalog_projection.py:537-570 | wherever there is a stray child, one completed play of it leaves the show's stored count behind |
| `Refresh.AlignedHasNoStrayChildren` | src/euvieouvi/sync/catalog_projection.py:537-550 | episodes that share a card and have nearest shows that share a card leave no stray child |
| `Refresh.ImpactedCardIsRebuilt` | src/euvieouvi/sync/catalog_projection.py:572-595 | an impacted card is recomputed to exactly what the rebuild computes |
| `Refresh.UntouchedCardIsRebuilt` | src/euvieouvi/sync/catalog_projection.py:373-398 | a card above no dirty item needs no recomputation |
| `Refresh.UntouchedCard` | src/euvieouvi/sync/catalog_projection.py:373-398 | no member of an untouched card and nothing below one is dirty |
| `Refresh.TreeHoldsPlayback` | src/euvieouvi/sync/catalog_projection.py:404-437 | the loaded tree holds every row whose walk reaches an impacted card |
| `Refresh.TreeHoldsChildren` | src/euvieouvi/sync/catalog_projection.py:521-550 | the loaded tree holds every episode of an impacted show card |
| `Refresh.ChildrenJudgedAlike` | src/euvieouvi/sync/catalog_projection.py:551-570 | recomputed and stored counts together judge every child card as a rebuild does |
| `Refresh.OnlyShowsHaveChildren` | src/euvieouvi/sync/catalog_projection.py:589-591 | cards that are not shows have no children, so leaving their counts alone is right |
| `Refresh.RebuildIsUnique` | src/euvieouvi/sync/catalog_projection.py:83-361 | a rebuild of given tables stores exactly one thing |
| `Store.Database.constructor` | migrations/versions/20260928_0024_catalog_projection.py:91-99 | an empty projection starts marked as changed, so it is rebuilt before it is served |
| `Store.Database.FireActivityTrigger` | migrations/versions/20260928_0025_incremental_catalog_activity.py:57-78 | every touched item becomes dirty; the marker becomes `activity` unless it reads `identity` or is missing |
| `Store.Database.ReplaceEvents` | migrations/versions/20260928_0025_incremental_catalog_activity.py:57-78 | inserting, updating or deleting watch events changes the facts of only the old and new items, all of which become dirty |
| `Store.Database.ReplaceStates` | migrations/versions/20260928_0025_incremental_catalog_activity.py:57-78 | the same for watch states |
| `Store.Database.ReplaceIdentity` | migrations/versions/20260928_0024_catalog_projection.py:125-141 | a write to items, identifiers or references makes the marker `identity` and cascades to playback rows, entries and members; file paths and connector types stay |
| `Store.Database.ReplaceEvidence` | migrations/versions/20260928_0024_catalog_projection.py:125-141 | a write to file paths or sources changes the tables and neither the marker nor the dirty set, as no trigger watches them |
| `Store.Database.MarkProjectionStale` | src/euvieouvi/sync/catalog_reconcile.py:247-252 | sets the marker `full` |
| `Store.Database.Rebuild` | src/euvieouvi/sync/catalog_projection.py:83-361 | stores exactly the rebuild of the current tables, every field as the rows tell it, empties the dirty set and marks clean |
| `Store.Database.RefreshActivity` | src/euvieouvi/sync/catalog_projection.py:364-595 | with nothing dirty rebuilds; otherwise renews exactly the impacted entries, empties the dirty set and marks clean |
| `Store.Database.RefreshedEntries` | src/euvieouvi/sync/catalog_projection.py:373-592 | without impacted cards no entry changes; otherwise each impacted entry is renewed and no other |
| `Store.Database.EnsureProjection` | src/euvieouvi/sync/catalog_projection.py:67-80 | does nothing, refreshes or rebuilds exactly as marker, entries and dirty set demand |
| `Store.FlagAvailability` | src/euvieouvi/sync/catalog_projection.py:295-312 | a card is available, on Plex or on Jellyfin exactly when some live reference of a member says so |
| `Store.CleanMeansRebuilt` | migrations/versions/20260928_0025_incremental_catalog_activity.py:57-78 | over every run of identity writes, playback writes, stale marks and serving on a catalog of bounded depth: clean means that nothing is dirty, every item is on its card, and every field is what a rebuild stores, except the completed children of the shows a refresh missed; provided no playback is written under `full` and path evidence is fixed |
| `Store.CleanIsExact` | src/euvieouvi/sync/catalog_projection.py:67-80 | from any moment with nothing stale, and while no refresh misses a stray child, clean means exactly a rebuild of the current tables, every field as the rows tell it |
| `Store.RebuildClearsStale` | src/euvieouvi/sync/catalog_projection.py:67-80 | nothing is stale at the start, after a rebuild, and after any change of identity |
| `Store.CleanIsExactWhenAligned` | migrations/versions/20260928_0025_incremental_catalog_activity.py:57-78 | over every run on catalogs whose shared episodes have shared shows, clean means exactly a rebuild |
| `Store.EnsureMakesClean` | src/euvieouvi/sync/catalog_projection.py:67-80 | whichever branch is taken, the projection served is clean, with nothing dirty, and a rebuild of the current tables but for the shows a refresh missed |
| `Serving.ServingDecides` | src/euvieouvi/sync/catalog_projection.py:67-80 | serving a clean catalog changes nothing; after playback alone the cards stay and so does every entry that no played item lies below; otherwise every entry is told anew from the rows |
| `Serving.PlaybackWriteDecides` | migrations/versions/20260928_0025_incremental_catalog_activity.py:57-78 | played items become dirty, nothing else is touched, and the marker reads `activity` unless it reads `identity` or is missing |
| `Serving.IdentityWriteDecides` | migrations/versions/20260928_0024_catalog_projection.py:125-141 | deleted items take along exactly their playback rows, entries and members; the facts of all other items are what they were |
| `Staleness.StrayShowGoesStale` | src/euvieouvi/sync/catalog_projection.py:537-570 | a well-formed catalog of two shows and a whole run on it, rebuild, one play, refresh: the grouping puts their episodes on one card, and the projection is clean but not a rebuild |
| `Staleness.StrayRun` | src/euvieouvi/sync/catalog_projection.py:537-570 | the same run for every catalog whose computed cards have a stray child |
| `Staleness.PairSharesCardIff` | src/euvieouvi/sync/catalog_projection.py:114-183 | two items of a kind that share a stable id, and no id with a third, share a card if and only if they are compatible |
| `Evidence.PathsKeepFreshIff` | migrations/versions/20260928_0024_catalog_projection.py:125-141 | a write of file paths leaves every fresh projection of these rows fresh, whatever the identifiers, if and only if no two items of a kind that might share a card gain or lose a conflict of files |
| `Evidence.KeptConflictsKeepCards` | src/euvieouvi/sync/catalog_projection.py:124-207 | when no conflict is gained or lost, every item stays on its card |
| `Evidence.PathsKeepCardsIff` | src/euvieouvi/sync/catalog_projection.py:124-183 | and that is exact: any conflict gained or lost moves a card under some identifiers |
| `Evidence.PairKeepsCardsIff` | src/euvieouvi/sync/catalog_projection.py:124-183 | two items that share an id, and none with a third, stay together or stay apart under new paths if and only if their conflict is kept |
| `Evidence.LatePathsAreMissed` | migrations/versions/20260928_0024_catalog_projection.py:125-141 | the run that fails: two copies share a card, their files turn out to differ, and the projection stays marked clean |
| `Store.PlaybackWriteKeepsSound` | migrations/versions/20260928_0025_incremental_catalog_activity.py:57-78 | after playback writes the tables differ from the last clean point only in the facts of dirty items |
| `Store.PlaybackIsSafeExceptUnderStale` | migrations/versions/20260928_0025_incremental_catalog_activity.py:72-77 | playback writes keep the protocol sound under a marker if and only if the marker is not `full` |
| `Store.StaleMarkerIsLost` | migrations/versions/20260928_0025_incremental_catalog_activity.py:72-77 | the run that fails: an item is added, the projection is marked `full`, an older item is played, and serving calls a projection clean that lacks the new item |
| `Store.ComputedCardsAreCards` | src/euvieouvi/sync/catalog_projection.py:194-207 | the computed membership shows items on existing cards of their own kind |
| `LinkedSets.Forest.Find` | src/euvieouvi/sync/catalog_reconcile.py:271-276 | the walk with path halving ends at the root of the class and leaves the partition as it was |
| `LinkedSets.Forest.Attach` | src/euvieouvi/sync/catalog_reconcile.py:278-284 | hanging one root below another merges exactly their classes |
| `LinkedSets.Forest.Include` | src/euvieouvi/sync/catalog_reconcile.py:272 | a value seen for the first time becomes its own class |
| `ItemGroups.DuplicateGroups` | src/euvieouvi/sync/catalog_reconcile.py:255-288 | the groups are the connected components of shared identifiers with more than one item; no item is in two groups |
| `ItemGroups.CollectGroups` | src/euvieouvi/sync/catalog_reconcile.py:285-288 | every class of at least the given size is listed exactly once, whole |
| `ItemGroups.MatchingGroups` | src/euvieouvi/sync/watch_sync.py:74-135 | the groups between which states travel are disjoint, of one kind, cover all syncable items, and are the connected components of shared files and of shared ids not contradicted by files |
| `ItemGroups.LinkMentions` | src/euvieouvi/sync/watch_sync.py:92-129 | each row links its item with the first item of the same clue, except ids whose items have files and none in common |
| `MatchEvidence.GroupMatesAreRelated` | src/euvieouvi/sync/watch_sync.py:74-135 | items travel together only along a chain of files in common and of ids in common that no files contradict |
| `MatchEvidence.GroupMatesAreOfOneKind` | src/euvieouvi/sync/watch_sync.py:105-135 | only movies, episodes and tracks travel, and only with their own kind |
| `MatchEvidence.FileMatesAreTogether` | src/euvieouvi/sync/watch_sync.py:92-104 | items of one kind with a file in common always do |
| `MatchEvidence.IdMatesAreTogether` | src/euvieouvi/sync/watch_sync.py:105-129 | items of one kind with an id in common do when the files of none of its items contradict |
| `MatchEvidence.TwoItemsTogetherIff` | src/euvieouvi/sync/watch_sync.py:74-135 | of only two items exactly these things decide |
| `WatchStates.WatchStateTable.SyncWatchState` | src/euvieouvi/sync/persistence.py:1022-1048 | a library scan's report; a count below the stored one is reported as regression and lowers nothing |
| `WatchStates.WatchStateTable.ApplyEvent` | src/euvieouvi/sync/persistence.py:242-272 | a completed event in the state of its item, in the same transaction |
| `WatchStates.WatchStateTable.SetDerived` | src/euvieouvi/sync/persistence.py:348-370 | a container's state is overwritten, except that its last playback never goes back |
| `WatchStates.WatchStateTable.ApplyInstant` | src/euvieouvi/sync/async_tasks.py:393-466 | the local half of an instant update; completed rows are left alone |
| `WatchStates.WatchStateTable.RecordPropagated` | src/euvieouvi/sync/watch_sync.py:699-728 | an accepted candidate in the target's row; an unfinished candidate never uncompletes |
| `WatchStates.WatchStateTable.RefreshImported` | scripts/import_trakt_export.py:692-740 | the history import only raises counts and dates and completes |
| `WatchStates.WatchStateTable.PersistProgress` | src/euvieouvi/web/routes.py:3149-3190 | a resume position from a webhook; a completed row keeps its position and is not forwarded |
| `WatchStates.WatchStateTable.FoldStates` | src/euvieouvi/sync/catalog_reconcile.py:610-641 | the three statements join both items' rows per source and leave no row of the loser |
| `WatchStates.RunKeepsSensible` | src/euvieouvi/sync/persistence.py:242-272 | over every sequence of all eight writers: a positive view count always means completed |
| `WatchStates.RunAdvances` | src/euvieouvi/sync/persistence.py:1022-1048 | over every such sequence no row is lost, last playback never goes back, and for playable items completion never reverts and counts never fall |
| `WatchStates.WriteAdvances` | src/euvieouvi/sync/catalog_reconcile.py:610-641 | one write changes no row but its own; a fold carries every row to its heir |
| `WatchStates.CompletionDateKeptIff` | src/euvieouvi/sync/async_tasks.py:454-458 | for every table, write and row: the completion date does not go back if and only if the write is none of the three that overwrite it, or brings no earlier date |
| `WatchStates.EachWriterCanGoBack` | src/euvieouvi/sync/persistence.py:348-370 | a derived container, an accepted propagation and an instant update can each move back or erase the date of any dated row |
| `WatchStates.RunKeepsCompletionDate` | src/euvieouvi/sync/watch_sync.py:699-728 | over every run whose writes bring no earlier date at their turn, the completion date never goes back, through merges as well |
| `WatchStates.StatementsFold` | src/euvieouvi/sync/catalog_reconcile.py:610-641 | update, delete and move together are the row-wise join |
| `WatchStates.DeleteFreesKeys` | src/euvieouvi/sync/catalog_reconcile.py:631-641 | after the DELETE no row of the loser has a key of the winner, so the UPDATE violates no unique key |
| `WatchStates.MoveRows` | src/euvieouvi/sync/catalog_reconcile.py:638-641 | the UPDATE, possible only when every new key is free, keeps every row under its new key |
| `StateHistory.RunBrings` | src/euvieouvi/sync/persistence.py:242-272 | over every run of writes but folds the last playback of a row is the latest ever brought to it; of a playable item the count is the greatest ever brought, and it is watched if and only if that was ever said |
| `StateHistory.WriteBrings` | src/euvieouvi/sync/persistence.py:1022-1048 | one write, field by field: what each of the writers brings in dates, views and completion, and that containers are overwritten |
| `StateHistory.WriteReplaces` | src/euvieouvi/sync/async_tasks.py:393-466 | and which position, completion date and time of observation each of them leaves |
| `StateHistory.FoldIsTold` | src/euvieouvi/sync/catalog_reconcile.py:610-641 | per source the fold keeps the winner's own position and takes the more and the later of both rows in everything else, or the only row as it is |
| `Containers.RebuildContainers` | src/euvieouvi/sync/persistence.py:274-346 | season, show, album and artist rows: completed exactly when every available playable item below is, with the least count and the latest date; grandparents by all grandchildren; no other row changes |
| `Containers.AggregateIsAggregated` | src/euvieouvi/sync/persistence.py:1065-1071 | the aggregate is zero unless every child counts, else the least count; the date is the latest known |
| `Containers.AggregatedIsUnique` | src/euvieouvi/sync/persistence.py:1065-1071 | that description leaves no freedom |
| `Containers.RebuiltIsTold` | src/euvieouvi/sync/persistence.py:274-346 | from the rows: a container is watched if and only if every item below is, as often as the one seen least, and last when any of them was; an item's own row decides, and without one its events do |
| `Containers.GroupByGrandparent` | src/euvieouvi/sync/persistence.py:337-346 | the lists of all parents of one grandparent hold exactly its grandchildren |
| `EventReplay.EventTable.PersistEvent` | src/euvieouvi/sync/persistence.py:173-240 | stores, updates, ignores or refuses a report exactly as specified, and touches the watch state only when a row was added |
| `EventReplay.PersistKeepsUniqueKeys` | src/euvieouvi/sync/persistence.py:173-240 | neither (source, event id) nor (source, dedup key) ever occurs twice, also when a repeated report rewrites the key |
| `EventReplay.ReportsStaySpaced` | src/euvieouvi/sync/persistence.py:186-240 | over all reports from all servers completed events of one item stay more than two minutes apart, when every event id keeps one date |
| `EventReplay.ReplayChangesNothing` | src/euvieouvi/sync/persistence.py:173-240 | reporting any sequence of events a second time leaves the table exactly as it was |
| `EventReplay.ReplayLeavesStates` | src/euvieouvi/sync/persistence.py:173-240 | nor does the second time change any watch state, whatever was written to the states in between |
| `EventReplay.MovedEventStaysSpacedIff` | src/euvieouvi/sync/persistence.py:186-198 | a repeated report with another date keeps the spacing if and only if no other event of the item is within two minutes of it |
| `EventReplay.MovedEventBreaksSpacing` | src/euvieouvi/sync/persistence.py:186-198 | three reports that bring two events of one item within two minutes |
| `EventReplay.LastWordStands` | src/euvieouvi/sync/persistence.py:186-198 | a stored event carries the details of the last report that spoke for it |
| `EventStates.ReportIsTold` | src/euvieouvi/sync/persistence.py:173-240 | a report is added if and only if it is completed, of known media, and no event is stored under its id or key or was completed within two minutes; a stored event is told anew in its place, an undated one keeps its date; nothing else changes |
| `EventStates.OneKeyIff` | src/euvieouvi/sync/persistence.py:1085-1097 | two reports have one key if and only if they agree in source, id, media, date, completion, position, duration and view number |
| `EventStates.AddedIsWritten` | src/euvieouvi/sync/persistence.py:242-272 | an added event is written into the row of its item on its server alone: watched, at least as often as events of it are stored there, and dated |
| `EventStates.StatesCoverAlways` | src/euvieouvi/sync/persistence.py:173-272 | over every sequence of reports no stored event is missing from the states: its item is watched there, as often and as late as its events say |
| `Propagation.Prepare` | src/euvieouvi/sync/watch_sync.py:432-560 | decides every group from the tables as they were, counts groups live on both servers, and skips the rest |
| `Propagation.DecideGroup` | src/euvieouvi/sync/watch_sync.py:444-490 | the directional decision table: completion first, conflicts to Plex |
| `PassEffects.DecisionIsTold` | src/euvieouvi/sync/watch_sync.py:444-560 | which groups are sent, and with what: live on both servers, watched on one and unwatched on the other, or else at different positions; the latest completion and the latest playback of the sending side, or its furthest position |
| `PassEffects.BothWaysIsTold` | src/euvieouvi/sync/watch_sync.py:491-560 | the same for deciding both directions at once |
| `PassEffects.PassIsTold` | src/euvieouvi/sync/watch_sync.py:432-735 | what a pass makes of every row: a completion arrives with the latest date of the sending side's completed states and events, and without one only if there is none, never with the time of observation; the last playback is the later of both sides; a position arrives as it is; every other row stays |
| `PassEffects.AcceptedAreRecorded` | src/euvieouvi/sync/watch_sync.py:158-234 | when servers refuse some candidates, exactly the rows of the accepted ones change |
| `Propagation.RecordSuccesses` | src/euvieouvi/sync/watch_sync.py:677-735 | every item of every accepted candidate is written once, in order |
| `Propagation.Run` | src/euvieouvi/sync/watch_sync.py:158-234 | accepted candidates are written in batches, each exactly once; updated and failed add up to all candidates |
| `Propagation.PassSettles` | src/euvieouvi/sync/watch_sync.py:432-560 | a pass changes a group only by the group's own decision, whatever other groups do |
| `Propagation.OneRoundConvergesIff` | src/euvieouvi/sync/watch_sync.py:444-490 | Plex to Jellyfin and then Jellyfin to Plex leaves nothing to send, completions agree and unfinished positions agree with Plex winning, if and only if no stale position on Jellyfin overtakes the sent one |
| `Propagation.BlockedGroupDoesNotConverge` | src/euvieouvi/sync/watch_sync.py:449-489 | such a group: an item that left Jellyfin keeps a later position there than the one Plex sends |
| `IncrementalScope.GroupsInScope` | src/euvieouvi/sync/watch_sync.py:326-346 | an incremental pass forms its groups among the items of its scope, as if there were no others |
| `IncrementalScope.KeepsGroupsIff` | src/euvieouvi/sync/watch_sync.py:92-135 | every group the scope touches is formed whole if and only if the scope covers it; links by id and by file, and their contradictions, are the same within such a scope |
| `IncrementalScope.ScopedPassIsFullPassIff` | src/euvieouvi/sync/watch_sync.py:319-346 | a pass over the scope sends what a full pass sends, in every world where the groups outside were quiet and unchanged, if and only if the scope covers every group it touches |
| `IncrementalScope.CompletionIsLost` | src/euvieouvi/sync/watch_sync.py:587-664 | the pass that loses one: one film on each server, one file and no id, watched on Plex; the scope is one item, nothing is sent, and the cut-off moves on for up to a week |
| `IncrementalScope.NoChangeIsForgotten` | src/euvieouvi/sync/watch_sync.py:587-664 | a change at or after the beginning of one pass is in the scope of the next, and a week after the last full pass the next is full |
| `IncrementalScope.ScopeIff` | src/euvieouvi/sync/watch_sync.py:600-664 | the scope is what changed since the cut-off and what shares an id with that, one step far |
| `IncrementalScope.SharedIdsAreCovered` | src/euvieouvi/sync/watch_sync.py:640-664 | where shared ids alone make the groups, and directly, every scope covers what it touches |
| `Propagation.FurtherPassesAreEmpty` | src/euvieouvi/sync/watch_sync.py:432-560 | when positions exist only for live items, any further pass in either direction has no candidate at all |
| `Propagation.BothWaysIsQuietIff` | src/euvieouvi/sync/watch_sync.py:491-517 | deciding both directions at once is quiet exactly when completions agree and nothing unfinished has a position |
| `Propagation.BothWaysNeverSettles` | src/euvieouvi/sync/watch_sync.py:507-514 | equal positions are sent to Plex again for ever in that mode |
| `Propagation.PositionArrives` | src/euvieouvi/sync/watch_sync.py:699-728 | the target then shows the sent position, or a later one of an item it no longer has |
| `Propagation.CompletionArrives` | src/euvieouvi/sync/watch_sync.py:699-728 | after an accepted completion the target counts as watched |
| `AsyncQueue.TaskTable.EnqueueWatchUpdate` | src/euvieouvi/sync/async_tasks.py:33-94 | a payload for a task being sent waits in the second slot; any other task starts over with it |
| `AsyncQueue.TaskTable.ClaimDue` | src/euvieouvi/sync/async_tasks.py:188-205 | claims the due task that has waited longest, and none only when none is due |
| `AsyncQueue.TaskTable.FinishRun` | src/euvieouvi/sync/async_tasks.py:207-240 | deletes the task unless a payload arrived meanwhile, which is then due at once |
| `AsyncQueue.TaskTable.FailRun` | src/euvieouvi/sync/async_tasks.py:241-264 | counts the failure, blocks at the twelfth, backs off, and moves the waiting payload up |
| `AsyncQueue.TaskTable.RecoverTasks` | src/euvieouvi/sync/async_tasks.py:593-608 | after a crash no task stays in processing and none loses its newest payload |
| `AsyncQueue.TaskTable.RetryEverything` | src/euvieouvi/sync/async_tasks.py:317-330 | no task stays blocked; tasks being sent are left alone |
| `AsyncQueue.IsSuperseded` | src/euvieouvi/sync/async_tasks.py:278-302 | a resume position is dropped exactly while a completion of the same item is queued |
| `AsyncQueue.TaskTable.DropIfSuperseded` | src/euvieouvi/sync/async_tasks.py:207-228 | a run of a superseded position ends without sending; any other goes on with the table as it was |
| `AsyncQueue.DropLeavesCompletion` | src/euvieouvi/sync/async_tasks.py:207-240 | over every run: a position found superseded and dropped, however much happens in between, leaves a completion of its item in the table |
| `AsyncQueue.DroppedIsMadeUpFor` | src/euvieouvi/sync/async_tasks.py:207-302 | at every later moment a completion of that item is queued, or the latest one was consumed |
| `AsyncQueue.LatestPayloadIsNeverLost` | src/euvieouvi/sync/async_tasks.py:33-275 | in every interleaving the latest payload of a key is stored, or was consumed by a run that began after it was enqueued |
| `AsyncQueue.PendingHasRetriesLeft` | src/euvieouvi/sync/async_tasks.py:241-264 | a pending row has fewer than twelve failures, a blocked one exactly twelve, and only a row being sent has a waiting payload |
| `AsyncQueue.StepKeepsInvariant` | src/euvieouvi/sync/async_tasks.py:33-275 | every step keeps: each row's newest payload is the latest enqueued for its key |
| `AsyncQueue.BackoffGrows` | src/euvieouvi/sync/async_tasks.py:255-256 | pauses grow from fifteen seconds to at most an hour |
| `TaskFates.FailureDecides` | src/euvieouvi/sync/async_tasks.py:241-264 | over every run: a failure counts, lets the waiting payload take over, blocks at the twelfth, and makes the task wait 15, 30, 60 seconds and so on up to an hour |
| `TaskFates.WaitsOutThePause` | src/euvieouvi/sync/async_tasks.py:188-264 | after a failure the task is not sent before the pause is over, unless a payload for it arrives or everything is retried |
| `TaskFates.EnqueuedIsDue` | src/euvieouvi/sync/async_tasks.py:33-94 | a payload for a task that is not being sent makes it due at once with a clean record, blocked or not |
| `TaskFates.SuccessDecides` | src/euvieouvi/sync/async_tasks.py:207-240 | a run that ends well removes its task, unless a payload arrived meanwhile, which is due at once |
| `TaskFates.RecoveryDecides` | src/euvieouvi/sync/async_tasks.py:593-608 | after a crash an interrupted task is pending with its newest payload and nothing else about it changes |
| `TaskFates.RetryDecides` | src/euvieouvi/sync/async_tasks.py:317-330 | every task not being sent is due, blocked or not |
| `TaskFates.ClaimDecides` | src/euvieouvi/sync/async_tasks.py:188-205 | the task started was due, and no other due one has waited longer or is older |
| `TaskFates.OneTaskIff` | src/euvieouvi/sync/async_tasks.py:33-47 | payloads share a task if and only if they complete one item at one date, or both report a position of one item |
| `JobQueue.JobTable.SubmitJob` | src/euvieouvi/sync/jobs.py:109-151 | refused exactly while the job is active; otherwise queued under a new id with one to ten attempts |
| `JobQueue.JobTable.ClaimNextJob` | src/euvieouvi/sync/job_worker.py:163-218 | starts the first unblocked ready run in priority order when nothing runs, and changes nothing otherwise |
| `JobQueue.JobTable.NextCandidate` | src/euvieouvi/sync/job_worker.py:167-196 | the candidate precedes every other ready run that waits for no queued dependency |
| `JobQueue.JobTable.RenewLease` | src/euvieouvi/sync/job_worker.py:288-303 | extends the lease exactly for the running owner |
| `JobQueue.JobTable.FailOrRetryJob` | src/euvieouvi/sync/job_worker.py:240-285 | a cancelled run ends, one with attempts left waits, any other fails; without the lease nothing changes |
| `JobQueue.JobTable.RecoverJobRuns` | src/euvieouvi/sync/job_worker.py:306-347 | recovers exactly the runs whose lease is gone, each by cancellation and attempts |
| `JobQueue.JobTable.StartClaimed` | src/euvieouvi/sync/jobs.py:162-176 | a run cancelled before its start is closed instead of started |
| `JobQueue.JobTable.RecordDispatch` | src/euvieouvi/sync/jobs.py:177-187 | the reference is kept only while the lease was not lost during dispatch |
| `JobQueue.JobTable.PollOnce` | src/euvieouvi/sync/jobs.py:255-350 | progress renews the lease, an outcome releases it, cancellation wins over the outcome |
| `JobQueue.JobTable.CloseFinished` | src/euvieouvi/sync/jobs.py:985-1040 | closes an active run exactly when the library scan it waits for has reached a terminal state; the branch for rows without attempts never applies |
| `JobQueue.JobTable.RequestCancellation` | src/euvieouvi/sync/jobs.py:1060-1077 | accepted exactly for active runs; a queued run ends at once |
| `JobQueue.JobTable.EnterInlineJob` | src/euvieouvi/sync/jobs.py:455-467 | before they begin they look at the lease and at a cancellation, once |
| `JobQueue.JobTable.FinishInlineJob` | src/euvieouvi/sync/jobs.py:509-530 | a worker that once entered the run writes its outcome, whoever holds the lease by then |
| `JobQueue.JobTable.RotateJobRuns` | src/euvieouvi/sync/jobs.py:647-659 | keeps exactly the newest runs of a job and every run of other jobs |
| `JobQueue.InvariantAlways` | src/euvieouvi/sync/job_worker.py:163-347 | in every reachable state at most one run is running and one per job active; queued means no lease, no cancellation and attempts left; running means leased; finished means no lease |
| `JobQueue.LifeFollows` | src/euvieouvi/sync/job_worker.py:240-347 | finished stays finished; a cancelled run never returns to the queue and its attempts never rise |
| `JobQueue.StartsAreAttempts` | src/euvieouvi/sync/job_worker.py:198-216 | a run is started exactly as often as its attempts say, so at most its limit |
| `JobQueue.StepFollows` | src/euvieouvi/sync/job_worker.py:240-347 | every change of status raises the attempts by one or lowers the rank of the status |
| `RunOutcomes.EndIsCaused` | src/euvieouvi/sync/job_worker.py:240-347 | over every run: each final status was given at some moment by an operation that gives it, and kept since: by the executor, the library scan or the job itself, by a failure or a lost lease without an attempt left, or by a cancellation |
| `RunOutcomes.SuccessIsReported` | src/euvieouvi/sync/jobs.py:255-350 | no run succeeds unless its executor, its scan or the job itself reported success, and a cancelled one not by its executor |
| `RunOutcomes.FailureDecides` | src/euvieouvi/sync/job_worker.py:240-285 | a failure of the lease holder ends a cancelled run as interrupted, ends a run as failed if and only if its attempts equal the limit, and queues it again otherwise, after 5, 10, 20 seconds and so on up to 300; of anybody else it does nothing |
| `RunOutcomes.RecoveryDecides` | src/euvieouvi/sync/job_worker.py:306-347 | the same for exactly the running runs whose lease ran out, without a pause |
| `RunOutcomes.ClaimDecides` | src/euvieouvi/sync/job_worker.py:163-218 | a claim starts one run that is queued, due and waits for no earlier queued dependency, and before which none of these has to go, for forty-five seconds; it changes nothing if something runs or nothing may start |
| `RunOutcomes.LeaseProtects` | src/euvieouvi/sync/job_worker.py:288-347 | for forty-five seconds from a start or a renewal nobody takes the run away and no other run starts |
| `RunOutcomes.RenewalDecides` | src/euvieouvi/sync/job_worker.py:288-303 | a renewal by the holder of a running run moves the end of its lease, and by anybody else does nothing |
| `RunOutcomes.EntryDecides` | src/euvieouvi/sync/jobs.py:455-467 | a run that was cancelled is closed when its holder starts or enters it, and no other |
| `RunOutcomes.ScanDecides` | src/euvieouvi/sync/jobs.py:985-1040 | the holder's reference is noted, and an active run takes its end from the library scan it refers to, once that has one |
| `RunOutcomes.AttemptsAreClamped` | src/euvieouvi/sync/jobs.py:154-160 | the configured number of attempts is read as one to ten, and as three when there is none |
| `RunOutcomes.PollDecides` | src/euvieouvi/sync/jobs.py:255-350 | an executor at work renews the lease, a finished one ends the run, as interrupted if it was cancelled |
| `RunOutcomes.CancellationDecides` | src/euvieouvi/sync/jobs.py:1060-1077 | a queued run ends at once, a running one is marked and goes on |
| `RunOutcomes.SubmittedIsDueAtOnce` | src/euvieouvi/sync/jobs.py:109-151 | a new run that waits for nobody may start from the moment it was submitted, and not before |
| `RunOutcomes.DependenciesComeFirst` | src/euvieouvi/sync/job_worker.py:22-40 | a job comes after every job it depends on in the order of starting |
| `JobQueue.StaleWorkerIsPowerless` | src/euvieouvi/sync/jobs.py:237-350 | over every run: from the moment its lease is taken away a worker changes nothing through renew, fail/retry, dispatch, monitor or entry, until the run is started for it again |
| `JobQueue.LeaseOnlyByClaim` | src/euvieouvi/sync/job_worker.py:197-218 | a lease is gained by a claim and by no other step |
| `JobQueue.LeaseIsExclusive` | src/euvieouvi/sync/job_worker.py:197-218 | no two workers hold a lease at once |
| `JobQueue.InlineFinishRespectsLeaseIff` | src/euvieouvi/sync/jobs.py:509-530 | in any table the unguarded finish leaves every row not leased to the worker as it is, for every outcome, if and only if the run is gone or leased to that worker |
| `JobQueue.InlineFinishFollowsIff` | src/euvieouvi/sync/jobs.py:509-530 | the same finish respects the life of a run for every outcome if and only if the run is not finished yet |
| `JobQueue.InlineFinishOverwritesOutcome` | src/euvieouvi/sync/jobs.py:593-622 | the run that fails: two workers entered one run, the second finished it, and the first overwrites its outcome |
| `JobQueue.InlineFinishClosesAnothersRun` | src/euvieouvi/sync/jobs.py:593-622 | the run on which a row of another worker changes: claimed and entered by one worker, recovered, claimed by a second, and closed by the first |
| `JobQueue.StartsWaitForDependencies` | src/euvieouvi/sync/job_worker.py:32-40 | over every run: whenever a run is started, every earlier run it depends on is finished, and stays finished for as long as it is kept |
| `JobQueue.FinishedForGood` | src/euvieouvi/sync/jobs.py:109-151 | over every run and under every step a finished run never becomes active again |
| `JobQueue.ClaimSucceeds` | src/euvieouvi/sync/job_worker.py:163-218 | when nothing runs, something waits and all waiting runs are due, a claim starts one |
| `JobQueue.RotationKeepsActive` | src/euvieouvi/sync/jobs.py:647-659 | with a clock that does not go back, rotation never deletes an active run |
| `JobQueue.SurvivesIffFewNewer` | src/euvieouvi/sync/jobs.py:647-659 | a run survives rotation if and only if fewer runs of its job are newer than are kept |
| `JobQueue.SurvivesAlwaysIffNewest` | src/euvieouvi/sync/jobs.py:639-659 | a run survives rotation under every retention if and only if no run of its job is newer |
| `JobQueue.SubmittedIsNewestIff` | src/euvieouvi/sync/jobs.py:109-151 | a new run is the newest of its job if and only if the clock is not behind any run of that job |
| `JobQueue.RotationMayDeleteActive` | src/euvieouvi/sync/jobs.py:647-659 | the run that fails: submitted at 9, claimed, finished, submitted at 5, and rotation deletes the queued run |
| `JobQueue.NeverRotatedAwayIff` | src/euvieouvi/sync/jobs.py:639-659 | a submitted run is kept for as long as it is active, in every continuation of the run and under every rotation, if and only if the clock was not behind any run of its job when it was submitted |
| `Catalog.MovableIff` | src/euvieouvi/sync/catalog_reconcile.py:577-595 | moving the loser's rows violates a unique key if and only if the winner already has a row under a key of the loser |
| `Merge.SurvivorsStandForAll` | src/euvieouvi/sync/catalog_reconcile.py:560-607 | after any merges every item has a surviving representative, and exactly the items that represent themselves survive |
| `Merge.RefsSurvive` | src/euvieouvi/sync/catalog_reconcile.py:597-601 | every source reference survives under its representative |
| `Merge.EventsSurvive` | src/euvieouvi/sync/catalog_reconcile.py:597-601 | every watch event survives under its representative |
| `Merge.NothingDangles` | src/euvieouvi/sync/catalog_reconcile.py:560-607 | after any merges no row of any table and no parent pointer names a deleted item |
| `Merge.StableIdsStayUnique` | src/euvieouvi/sync/catalog_reconcile.py:562-595 | at most one id per stable provider and item is preserved |
| `Merge.AttachedSurvive` | src/euvieouvi/sync/catalog_reconcile.py:577-595 | after any merges every genre, image and enrichment record, or one of the same name, belongs to the representative |
| `Merge.IdsAreAccounted` | src/euvieouvi/sync/catalog_reconcile.py:562-595 | an external id stays with the representative, unless that has another id of the same stable provider or some merged item has a confirmed match |
| `Merge.ItemsKeepTheirPlace` | src/euvieouvi/sync/catalog_reconcile.py:602-607 | survivors keep kind and confirmed match, and children follow the representatives of their parents |
| `Merge.FieldsSurvive` | src/euvieouvi/sync/catalog_reconcile.py:644-659 | no filled field of an item is lost: its representative has one of that name, and a survivor keeps every value of its own |
| `Merge.StatesAreJoins` | src/euvieouvi/sync/catalog_reconcile.py:610-641 | each surviving watch state is the join of the rows of all items it stands for, its resume position aside |
| `Merge.MergeOrderDoesNotMatter` | src/euvieouvi/sync/catalog_reconcile.py:610-641 | two orders of merging that group items alike leave the same states up to resume positions |
| `MergeOrigins.RecordsAreTold` | src/euvieouvi/sync/catalog_reconcile.py:577-595 | over any merges no genre, image or enrichment record is invented, and no survivor loses or changes one of its own |
| `MergeOrigins.IdsAreNotInvented` | src/euvieouvi/sync/catalog_reconcile.py:562-595 | every external id was one of an item its owner stands for |
| `MergeOrigins.ConfirmedIdsAreLeftAlone` | src/euvieouvi/sync/catalog_reconcile.py:572-576 | a confirmed item that survives has exactly the ids it had |
| `MergeOrigins.FieldsAreNotInvented` | src/euvieouvi/sync/catalog_reconcile.py:644-659 | every field of a survivor was one of an item it stands for |
| `Reconcile.MediaDatabase.MergeItem` | src/euvieouvi/sync/catalog_reconcile.py:560-607 | the statements together are one merge of all tables; the history stays valid when the live sources are disjoint, all pairs of originals that come together were allowed to, or seasons are merged |
| `Reconcile.MediaDatabase.AdoptChild` | src/euvieouvi/sync/catalog_reconcile.py:556 | hands a child to a parent that may hold it and changes nothing else |
| `Reconcile.MediaDatabase.MergeIdentifiers` | src/euvieouvi/sync/catalog_reconcile.py:562-595 | exactly the loser's ids that are neither contradicted nor overruled move to the winner, without duplicates |
| `Reconcile.MediaDatabase.MergeAttached` | src/euvieouvi/sync/catalog_reconcile.py:577-595 | the loser's genres, images and enrichment records move unless the winner has one of that name; without the DELETE the UPDATE could fail on a unique key |
| `Reconcile.DeleteMakesRoom` | src/euvieouvi/sync/catalog_reconcile.py:583-591 | after the DELETE no record of the loser has the name of one of the winner, so the UPDATE violates no unique key |
| `Reconcile.IdsMovable` | src/euvieouvi/sync/catalog_reconcile.py:583-595 | the same for external ids |
| `Reconcile.MediaDatabase.MergeRows` | src/euvieouvi/sync/catalog_reconcile.py:602-606 | the winner's empty fields are filled in, children follow, the loser is gone |
| `Reconcile.IntoKeepsValid` | src/euvieouvi/sync/catalog_reconcile.py:560-607 | a merge of items apart keeps levels, kinds and the separation of live copies |
| `Reconcile.LiveCarried` | src/euvieouvi/sync/catalog_reconcile.py:597-601 | a live reference stays live under the item that stands for its owner |
| `Reconcile.MergeKeepsLeveled` | src/euvieouvi/sync/catalog_reconcile.py:602-606 | show, season and episode levels stay a forest under merges of one kind |
| `Reconcile.LeveledIsShallow` | src/euvieouvi/sync/catalog_reconcile.py:602-606 | a leveled catalog is a forest shallow enough for the projection's bounded walks |
| `Duplicates.SafeSources` | src/euvieouvi/sync/catalog_reconcile.py:385-431 | true exactly when confirmed ids agree, files agree for movies and tracks, someone is owned, and no source has two live copies unless a split show is proved by files |
| `Duplicates.CountOwners` | src/euvieouvi/sync/catalog_reconcile.py:418-430 | more than one exactly when two items are live on the source |
| `Duplicates.ChooseWinner` | src/euvieouvi/sync/catalog_reconcile.py:434-457 | the winner is confirmed if any item is, live on Plex if any of these is, known to Plex if any of these is, and has the smallest id among those |
| `FoldEvidence.SplitShowIff` | src/euvieouvi/sync/catalog_reconcile.py:349-382 | a show in two halves is proved one if and only if all live episodes of both halves on that server have files, and some other server has live episodes of only one of them, with files, that include all of these |
| `FoldEvidence.FoldableIff` | src/euvieouvi/sync/catalog_reconcile.py:385-431 | a group is folded if and only if two items of it are left, no two have different confirmed ids or, as movies or tracks, different files, some server knows one of them, and no server lists two, unless these are the two halves of a show and all that is left, and their files prove them one |
| `Duplicates.EpisodeCandidates` | src/euvieouvi/sync/catalog_reconcile.py:491-551 | by id, else by file, else by number when that is unambiguous and not contradicted |
| `Duplicates.OnlyCandidateIff` | src/euvieouvi/sync/catalog_reconcile.py:491-551 | the only candidate is the one episode of the season that carries an id of the episode; or, if none does, the one with its season and episode number and a file live on two different sources; or, if none is either, the only one with its number, when one of the two has no stable id |
| `Duplicates.MergeEpisode` | src/euvieouvi/sync/catalog_reconcile.py:491-556 | one step: the episode is folded into an episode if and only if that is its only match by id, file or number and safe with it, and handed to the winning season otherwise |
| `Duplicates.MergeSeason` | src/euvieouvi/sync/catalog_reconcile.py:484-557 | every episode of the losing season was decided at its turn by that rule, by ids, files and numbers as they were then, and what represents it is below the winner; nothing else moves |
| `Duplicates.FoldSeason` | src/euvieouvi/sync/catalog_reconcile.py:475-478 | the losing season is represented by the other one, its episodes were decided one by one and are represented below it, everything else is where it was; its live copies stay apart if and only if the two had no live source in common |
| `Duplicates.SplitSeasonsComeTogether` | src/euvieouvi/sync/catalog_reconcile.py:467-480 | the fold that fails: two halves of a show, each with a season one that one server lists, taken through the move of a season |
| `Reconcile.FoldKeepsApartIff` | src/euvieouvi/sync/catalog_reconcile.py:560-607 | folding two items whose copies were apart keeps them apart if and only if they have no live source in common |
| `Reconcile.SeasonsApartIff` | src/euvieouvi/sync/catalog_reconcile.py:560-607 | over every history of merges no surviving season stands for two live on one source if and only if no two seasons were folded that shared one at their turn |
| `Duplicates.MoveSeason` | src/euvieouvi/sync/catalog_reconcile.py:467-480 | folds into the season when it is the only one of that number, hands over when there is none, leaves it where it is otherwise |
| `Duplicates.MergeHierarchy` | src/euvieouvi/sync/catalog_reconcile.py:460-481 | when the winner's season numbers are distinct they stay so and become the union of both shows' numbers; every season and episode is represented below the winner under its number, a folded episode by the one safe candidate of its turn; all other rows stay |
| `Duplicates.MergeInto` | src/euvieouvi/sync/catalog_reconcile.py:69-79 | after the loser is gone, and represented by the winner, the same holds; children follow, other items keep their place and live sources |
| `Duplicates.TwinIsApart` | src/euvieouvi/sync/catalog_reconcile.py:552-554 | an episode that may be folded into another stands in the winning season and has no live source in common with it |
| `Duplicates.MergeKeepsDistinct` | src/euvieouvi/sync/catalog_reconcile.py:460-481 | if below every show the season numbers are distinct, they are after one item was folded into another |
| `Duplicates.ReconcileGroup` | src/euvieouvi/sync/catalog_reconcile.py:58-79 | folded if and only if at least two items are left and they are safe; then all are represented by the preferred one, the seasons and episodes of every folded show were decided as its merge decides them, and items outside the group stay; otherwise nothing changes; a pair of originals is newly allowed only by two shows whose files prove them one |
| `Duplicates.ReconcileCatalog` | src/euvieouvi/sync/catalog_reconcile.py:41-115 | over the whole run, groups overlapping in any way, each group is folded or left by what it is at its turn; no survivor stands for two originals live on one source, except two shows that came together at the turn of a physical group whose files proved them one on that very source, and seasons, which stay apart if and only if none were folded that shared a live source; season numbers stay distinct, the seasons and episodes of every fold are accounted for, and nothing dangles |
| `Duplicates.OnlySplitShowsShare` | src/euvieouvi/sync/catalog_reconcile.py:418-430 | a safe group with a live source in common is a physical group of two shows |
| `Duplicates.HalvesAreSafeByFilesOnly` | src/euvieouvi/sync/catalog_reconcile.py:349-382 | such a group: two shows live on one server whose files another server has under one of them; safe by files, not by identifier |
| `Scan.LibraryScan.SyncLibrary` | src/euvieouvi/sync/orchestrator.py:207-315 | an attempt completes if and only if it lives for one commit per remaining page, the marking of missing references, the derived states and the checkpoint, and otherwise leaves exactly the pages it had time for and a sound cursor; a completed scan has stored all that was listed; references are switched off only by one whole listing that lacks them, references are switched off only by one whole listing that lacks them, and after a whole listing available means named by a listed item, be it as itself, as show, season, artist or album |
| `Scan.SyncWithRetries` | src/euvieouvi/sync/orchestrator.py:207-315 | over any number of crashes and resumes in one mode, whether some attempt completes is a function of how long each lived; when one does, everything listed was stored by it or the attempts before, and only what a whole listing lacks was switched off |
| `Scan.EnoughInTotal` | src/euvieouvi/sync/orchestrator.py:260-315 | attempts that never start over complete as soon as together they live for the commits of one whole run |
| `Scan.OneLargeBudgetFinishes` | src/euvieouvi/sync/orchestrator.py:207-315 | one attempt that lives for the whole run completes, whatever the attempts before it did |
| `Scan.EqualBudgetsFinishIff` | src/euvieouvi/sync/orchestrator.py:286-315 | attempts that live equally long ever complete a scan if and only if no stride of that length ends in the last two commits, after which the cursor is gone and the scan starts over |
| `Scan.LongerStridesMayNeverFinish` | src/euvieouvi/sync/orchestrator.py:286-315 | three pages: attempts of three commits complete, attempts of four start over for ever |
| `Scan.LibraryScan.ScanMedia` | src/euvieouvi/sync/orchestrator.py:240-275 | the page loop ends, each page is stored with its cursor, what was seen is what was listed between start and end, and it is cut short exactly if a page was left when its time was up |
| `Scan.LibraryScan.ScanHistory` | src/euvieouvi/sync/orchestrator.py:280-306 | the history loop ends, stores every position up to its cursor, and is cut short exactly if a page was left when its time was up |
| `Scan.LibraryScan.MediaStage` | src/euvieouvi/sync/orchestrator.py:240-278 | marks missing references only after a whole listing from the start |
| `Scan.LibraryScan.PersistMediaPage` | src/euvieouvi/sync/orchestrator.py:317-376 | a page's items, their containers and the cursor behind them, in one commit |
| `Scan.LibraryScan.PersistHistoryPage` | src/euvieouvi/sync/orchestrator.py:378-422 | a history page and its cursor; behind the last page there is none |
| `Scan.LibraryScan.CompleteCheckpoint` | src/euvieouvi/sync/orchestrator.py:523-550 | the new watermark is the overlap before the completing run |
| `Scan.LibraryScan.MarkMissingUnavailable` | src/euvieouvi/sync/orchestrator.py:552-563 | no reference becomes available, those seen stay as they are, all others are unavailable |
| `Scan.UninterruptedScansMissNothing` | src/euvieouvi/sync/orchestrator.py:216-227 | with clocks two minutes apart, every change made before an uninterrupted scan began was read by it or an earlier one |
| `Scan.ResumedScanMissesNothingIff` | src/euvieouvi/sync/orchestrator.py:309-314 | a resumed scan leaves no gap for the next one if and only if it was not interrupted |
| `Scan.ResumedScanMissesChange` | src/euvieouvi/sync/orchestrator.py:216-315 | the scans that miss a change: one dies after its first page, a film of that page changes, the scan is resumed and completes, and the next one asks for later changes only |
| `Scan.FullScanIsWeekly` | src/euvieouvi/sync/orchestrator.py:216-227 | a scan lists everything if and only if there was none, or no full one, or the last full one is a week old; otherwise what changed since the watermark |

## Left out

- Flask routes, templates, connector clients, encryption, image caching, metadata enrichment, logging and configuration: input and output without deep invariants.
- SQL text, indexes, sessions and locking: a statement is the function of the tables it computes, a committed transaction is one step, and the read-then-write of enqueueing and of claiming is one step as well.
- SHA-256 and Unicode normalisation: the hash is any injective function, titles are already normalised, dedup keys are the tuple that is hashed.
- Path normalisation and the splitting of concatenated path lists at commas: path keys are given, as sets.
- Projection.Summarise: rebuild and refresh repeat the same loops in the source; the model has them once, with the loaded rows, the cards to recompute and the stored counts as parameters.
- Store.Database.Rebuild: the group key and the time stamp of an entry are not among its fields; keys are treated in GroupKeys, and the counters a rebuild reports are not modelled.
- Refresh.RefreshIsRebuild: assumes a parent forest of depth at most four, which the recursive queries bound as well, and no stray child; both conditions are proved sufficient, and the second necessary.
- Store.CleanMeansRebuilt: assumes runs without writes to file paths, which fire no trigger, and without playback written under `full`; both conditions have a failing run beside them.
- ItemGroups.MatchingGroups: the rows arrive in the order the queries return them; which pairs a shared id links depends on that order in the source too.
- Propagation.Prepare: the groups are given; how an incremental pass forms them is in IncrementalScope, where the items changed since the cut-off are a map of dates rather than four queries.
- Propagation.OneRoundConvergesIff: assumes that every remote call succeeds; references found stale during a pass are not switched off in the model.
- WatchStates.WatchStateTable.ApplyInstant: the choice of target references and the remote calls before the local update are not modelled.
- WatchStates.WatchStateTable.RefreshImported: the importer's parsing and bookkeeping are not modelled, and dates compare as dates rather than as texts.
- EventReplay.EventTable.PersistEvent: forwarding a webhook event to the instant queue is left to AsyncQueue; merges that bring events of two items together are not part of the spacing theorem.
- Merge.StatesAreJoins: resume positions are outside the join, as in the source, so only they depend on the order.
- Duplicates.ReconcileCatalog: the groups are arbitrary lists of items of one kind, so the queries that form physical groups, the recovery of identifiers from titles and the dry-run rollback are not modelled; the groups by identifier are ItemGroups.DuplicateGroups.
- AsyncQueue.TaskTable.RecoverTasks: runs at start-up, before an executor works; a recovery beside a live executor is not modelled, and neither is the case of a task type other than the watch update.
- JobQueue.JobTable.PollOnce: the counters and texts copied from the executors are not modelled, only status, lease and cancellation.
- JobQueue.JobTable.FinishInlineJob: the work between entry and finish, vacuum, backup and file removal, is not modelled.
- Scan.LibraryScan.SyncLibrary: assumes a listing and a scan mode that do not change between a crash and the resume, pages that advance by position, and items that are stored; items that fail are skipped by the source as well.
- Scan.EqualBudgetsFinishIff: counts attempts in commits, so an attempt that dies between two commits is one that lived for the first; it begins with a whole run from the start.
- Scan.LibraryScan.ScanMedia: pages that continue by an opaque cursor instead of a position are not modelled.
- Connector circuit breaker, API pagination cursors, embedded-identifier patterns, the once-a-day schedule: small, or without a theorem across functions.
