# WyStack: drafts, publication and the reactive engines

A Dafny model of the two parts of WyStack whose correctness is hard to see from the code, with proofs
that hold for every input, every run and every interleaving.

**Drafts.** A draft is a sparse map of row changes over a canonical table. Reads join the two sides
through one of three plans; writes are upserts that keep the anchors of the first touch; publication
checks the anchors, orders the changes so that foreign keys hold after every step, and climbs each row to
its reviewed revision. A compacted command log is kept beside the rows under an optimistic revision.

**Engines.** The client keeps calls and subscriptions alive over pipes that come and go; the server gives
each subscribe frame an attempt token, shares one subscription store between connections, authenticates
racing frames, and routes every write to the subscriptions it affects.

The files follow the source.

| file | source |
|---|---|
| `DraftOverlay`, `ReadPlans` | the coalesced read and its three plans |
| `DraftWrites`, `DraftTables`, `DraftSimulation` | draft writes, and their agreement with a plain copy of the tables |
| `DraftHistory` | what change rows remember over runs in which the canonical rows move |
| `RowRevisions`, `CanonicalWrites`, `LockOrder` | the revision ledger, tracked writes, and lock order |
| `StepGraph`, `PublishOrder`, `PublishSafety` | the order of publication and foreign keys at every step |
| `Publication`, `PublishChanges`, `PublishedRuns` | applying reviewed changes, step by step and as runs of tracked writes |
| `DraftReview` | the check and the replay before it, and what other drafts see of it |
| `CommandLog`, `CommandLogSurvivors`, `CommandLogMeaning` | log compaction, what it keeps and what it preserves |
| `DraftStore`, `Lifecycle` | the stored draft, and append, rebase, discard and publish interleaved |
| `StableJson`, `IdentityCodec` | the canonical encoders |
| `ClientProtocol`, `ClientSafety`, `ClientEngine` | the client engine: its steps, what every run keeps, its methods |
| `ClientOutcomes`, `ClientNotices`, `ClientRegistry`, `ClientReconnect` | what its calls get, what leaves it, what it remembers, and when it keeps trying |
| `SubscriptionStore`, `ServerEngine`, `ServerAttachment` | subscribe attempts on connections that share a store |
| `InvalidationRouter`, `Session`, `Transactions` | invalidation chains, the auth session, tracked transactions |

Code that updates state in place is modelled by classes and loops whose contracts equate the new state
with a function of the old one; the theorems are about those functions and their runs. An `await` is a
split: what follows it is a separate step, so that anything else can happen in between. The closure
variables of the client engine are grouped in three records (link, registry, calls).

The main results about drafts compose. `DraftHistory.RunsKeep` covers every run that interleaves a draft's
statements with tracked statements and other drafts' locks, with no assumption on what the canonical rows do
in between; `DraftReview.WriteAndPublish` starts such a run from an empty draft and publishes what it wrote.
A publication is itself a run of tracked writes at every row (`PublishedRuns.PublicationIsRuns`), so the drafts beside it
see it like any other (`DraftReview.OtherDraftsSee`).

Four properties are false of the code as one would first state them. Each is stated with the condition
under which it holds.

- A draft that passes the check can still be refused for drift. An update whose patch names only properties
  its table does not have is accepted; the properties are dropped and the planned revision stays
  (`DraftWrites.FirstUpdateIsUnpublishableIff`). Publishing it takes an update statement with nothing to
  write, so the row cannot climb to its revision. Publication fails on exactly these changes and on
  foreign-key cycles (`PublishChanges.ApplyReviewedChanges`), and a draft whose updates each name a column
  is never refused for drift (`DraftReview.Publish`, `DraftReview.WriteAndPublish`).
- An order that respects every edge can still break a foreign key: edges tie a child to a parent only at
  steps where the child lets go of its reference or takes hold of one, so a child that keeps its reference
  throughout is tied to nothing. Deleting a parent and inserting it again does it
  (`DraftWrites.DeleteThenInsertReplaces`, `PublishSafety.ReplacedParentBreaksKey`), and so does moving a referenced value from one parent to another
  (`PublishSafety.MovedCodeBreaksKey`). `PublishSafety.ScheduleIsSafeIff` gives the exact condition: every
  kept reference has a parent that no step takes away.
- When the carrier throws on an auth frame, the acknowledgement timer is started all the same and nothing
  clears it; it can take away the handle of the next attempt's timer, which then closes an authenticated
  pipe (`ClientSafety.StaleTimerDropsAuthenticatedPipe`). A thrown auth frame is the only step that does this
  (`ClientSafety.TimersBreakIffAuthRefused`), so a run without one is safe
  (`ClientSafety.NoTimerOutlivesAuthentication`).
- An engine that was told to connect can stop trying although nobody disconnected it: its pipe closes while the
  carrier is still getting ready, the retry fires into the attempt in flight and is spent, and the carrier then
  settles, either way (`ClientReconnect.SlowCarrierStrandsEngine`). This and a disconnect are the only steps that
  stop it (`ClientReconnect.StopsIffGivesUp`, `ClientReconnect.ConnectKeepsTrying`).

## Model

| member | source | states |
|---|---|---|
| `ReadPlans.PruningKeepsTop` | packages/db/src/draft-select-builder.ts:477-490 | dropping a row that has at least `n` kept rows before it never changes the first `n` |
| `ReadPlans.SmallerLimitIsPrefix` | packages/db/src/draft-select-builder.ts:454-460 | a read with a smaller limit is a prefix of the read with a larger one |
| `ReadPlans.BelowTheBound` | packages/db/src/draft-select-builder.ts:477-482 | a filtered base row outside the top L + M has at least L surviving rows before it, whatever the M changed keys are |
| `ReadPlans.BoundedScanIsExact` | packages/db/src/draft-select-builder.ts:490-550 | the scan of the top L + M base rows, less changed keys, plus the changed rows has the same first L as the whole overlay |
| `ReadPlans.BoundedPlanIsOverlay` | packages/db/src/draft-select-builder.ts:490-554 | the bounded plan returns the same rows in the same order as the full overlay join, for every base, change set, filters, order and limit |
| `ReadPlans.PointPlanIsOverlay` | packages/db/src/draft-select-builder.ts:411-444 | with a primary-key equality among the filters the point plan returns what the overlay join returns |
| `ReadPlans.PlansAgree` | packages/db/src/draft-select-builder.ts:358-555 | for every query over a strict total order on values, the plan the code picks returns the overlay join's list |
| `ReadPlans.ChosenPlanIsOverlay` | packages/db/src/draft-select-builder.ts:358-555 | the same for any clause order that is total on rows |
| `ReadPlans.ReadReturnsEffectiveRows` | packages/db/src/draft-select-builder.ts:289-328 | a read lists, in order and without duplicates, exactly the effective rows that pass the filters, cut at the limit |
| `ReadPlans.HoldsIffAllows` | packages/db/src/draft-select-builder.ts:461-475 | a filter holds of a cell exactly if cell and operand compare as its operator says, and never of NULL |
| `ReadPlans.BeforeIffInOrder` | packages/db/src/draft-select-builder.ts:446-453 | one row stands before another exactly as asked for: ascending or descending by cell, NULLs at the end that order puts them, ties and unordered reads by ascending key |
| `ReadPlans.ReadAnswersQuery` | packages/db/src/draft-select-builder.ts:358-554 | whatever plan is chosen, the list returned is filtered, ordered and cut as the clauses say, cell by cell |
| `ReadPlans.PlanChosen` | packages/db/src/draft-select-builder.ts:414-554 | the plan is the narrowest that applies: a key equality, else a bound, else the whole join |
| `ReadPlans.FirstIsHeadOfAll` | packages/db/src/draft-select-builder.ts:562-565 | `first()` is the first row of `all()`, even though its limit can change the plan |
| `ReadPlans.ClauseOrderIsTotal` | packages/db/src/draft-select-builder.ts:446-453 | the order-by clauses with the key as tiebreaker order any two rows of different keys |
| `ReadPlans.FirstPkEquality` | packages/db/src/draft-select-builder.ts:414-417 | no earlier filter is a primary-key equality, and the one found is, unless the end is reached |
| `DraftWrites.WrittenField` | packages/db/src/draft-mutations.ts:177-280 | after an upsert each field keeps its first original and takes the newest proposal |
| `DraftWrites.LaterWritesKeepAnchors` | packages/db/src/draft-mutations.ts:261-280 | no later write moves `base_exists`, `base_revision` or any original |
| `DraftWrites.WriteIsAnchored` | packages/db/src/draft-mutations.ts:177-200 | every original a write records is the canonical cell it was made over |
| `DraftWrites.InsertRefusedIffPresent` | packages/db/src/draft-mutations.ts:243-266 | an insert is refused exactly when its key is effectively present |
| `DraftWrites.UpdateRowEffect` | packages/db/src/draft-select-builder.ts:220-236 | an update leaves the matched effective row patched and its revision one higher; properties the table does not have are dropped |
| `DraftWrites.DeleteRowEffect` | packages/db/src/draft-select-builder.ts:269-279 | a delete hides the row and records every cell it hid |
| `DraftWrites.InsertRowEffect` | packages/db/src/draft-mutations.ts:470-485 | an accepted insert makes exactly the given row visible, at the planned revision |
| `DraftWrites.UpdateRevisionIsSound` | packages/db/src/draft-mutations.ts:184-214 | a planned revision is always past the anchored one |
| `DraftWrites.WriteStaysAnchored` | packages/db/src/draft-mutations.ts:177-280 | an insert, update or delete over the row its change is anchored to leaves the change anchored |
| `DraftWrites.WrittenKeepsAnchors` | packages/db/src/draft-mutations.ts:261-280 | no statement moves an anchor, whatever has happened to the canonical row |
| `DraftWrites.DeleteThenInsertReplaces` | packages/db/src/draft-mutations.ts:261-283 | deleting a canonical row and inserting its key again leaves one change, an insert over a present row |
| `DraftWrites.FirstUpdateIsUnpublishableIff` | packages/db/src/draft-mutations.ts:108-137 | the first update of a revisioned row proposes only a revision, and so cannot be published, exactly when its patch names no column of the table |
| `DraftWrites.WriteStaysPublishable` | packages/db/src/draft-mutations.ts:108-137 | statements that name columns keep a change over an unmoved row publishable |
| `DraftTables.Draft.LockRevision` | packages/db/src/draft-mutations.ts:302-312 | the ledger entry is reserved and an existing one kept |
| `DraftTables.Draft.WriteDraftRow` | packages/db/src/draft-mutations.ts:331-358 | the lock, then one upsert of one change row; nothing else moves |
| `DraftTables.Draft.RecheckLocked` | packages/db/src/draft-select-builder.ts:170-181 | of the locked candidates, exactly those that still match are kept |
| `DraftTables.Draft.LockedWriteMatches` | packages/db/src/draft-select-builder.ts:140-182 | whatever tracked statements commit between the candidate read and the locks, the rows to write are exactly those that matched before them and match after |
| `DraftTables.Draft.WriteEach` | packages/db/src/draft-select-builder.ts:220-236 | the write loop leaves at each match what one row write there leaves, and nothing else |
| `DraftTables.Draft.Update` | packages/db/src/draft-select-builder.ts:196-245 | every matching effective row is patched and bumped, and no other row changes; an empty patch writes nothing |
| `DraftTables.Draft.Delete` | packages/db/src/draft-select-builder.ts:255-287 | every matching effective row disappears, and no other row changes |
| `DraftTables.Draft.InsertPrepared` | packages/db/src/draft-mutations.ts:470-485 | the batch is written in lock order, or stops at the first refused row |
| `DraftTables.Draft.Insert` | packages/db/src/draft-mutations.ts:424-493 | a batch is accepted exactly when its keys are distinct and effectively absent; a refused batch leaves no trace; results come back in input order |
| `DraftTables.Draft.Execute` | packages/db/src/draft-select-builder.ts:196-287 | each statement leaves at every target what one row write there leaves, or nothing |
| `DraftTables.Reposition` | packages/db/src/draft-mutations.ts:470-486 | each result is returned at its row's position in the input |
| `DraftSimulation.Apply` | packages/db/src/draft-select-builder.ts:196-287 | one statement on the draft reads as the statement on a plain copy of the tables, and is accepted exactly when the copy accepts it |
| `DraftSimulation.Run` | packages/db/src/draft-mutations.ts:238-295 | any sequence of inserts, predicate updates and deletes over fixed canonical rows reads as the same statements on a plain copy, the revision column aside; verdicts agree and anchors never move |
| `StepGraph.Graph.AddEdge` | packages/server/src/draft-publication.ts:264-270 | an edge is added once, and a self-edge never |
| `StepGraph.Graph.Order` | packages/server/src/draft-publication.ts:331-347 | the greedy loop orders every step, smallest ready index first, or reports that the edges have a cycle — exactly when they do |
| `StepGraph.CyclicHasNoOrder` | packages/server/src/draft-publication.ts:342-346 | a cyclic graph has no order that respects it |
| `StepGraph.StuckIsCyclic` | packages/server/src/draft-publication.ts:333-346 | a loop that stops early has found a cycle |
| `PublishOrder.BuildSteps` | packages/server/src/draft-publication.ts:247-263 | the removes and writes of the changes, in order, with their positions |
| `PublishOrder.AddPairEdges` | packages/server/src/draft-publication.ts:288-327 | a child and a parent change add exactly the edges their tuples call for |
| `PublishOrder.BuildGraph` | packages/server/src/draft-publication.ts:264-329 | the graph holds exactly the replace and foreign-key edges |
| `PublishOrder.AllEdgesAreRequired` | packages/server/src/draft-publication.ts:272-329 | the edges added by the three loops are exactly the required precedences |
| `PublishOrder.OrderReviewedChangeSteps` | packages/server/src/draft-publication.ts:246-348 | a permutation of the steps that respects every precedence, ties to the earlier step; an error exactly on a cycle |
| `PublishOrder.OrderIsSchedule` | packages/server/src/draft-publication.ts:331-347 | an order that respects the edges runs every step once, after all it must follow |
| `PublishSafety.RunReachesState` | packages/server/src/draft-publication.ts:395-432 | after any list of steps each target shows its original, nothing, or its final row, as the steps done say |
| `PublishSafety.ClosedSetSatisfies` | packages/server/src/draft-publication.ts:246-348 | a set of done steps that holds all their predecessors satisfies the foreign key |
| `PublishSafety.PrefixIsClosed` | packages/server/src/draft-publication.ts:331-347 | every prefix of the order holds all predecessors of its steps |
| `PublishSafety.EveryPrefixSatisfies` | packages/server/src/draft-publication.ts:246-348 | if the start and the end satisfy a foreign key and kept references have kept parents, so does every prefix |
| `PublishSafety.SafeSchedulesKeepParents` | packages/server/src/draft-publication.ts:246-348 | the converse: with unique parents, an order safe at every prefix keeps a parent for every kept reference |
| `PublishSafety.ScheduleIsSafeIff` | packages/server/src/draft-publication.ts:246-348 | every prefix of the order satisfies the foreign key if and only if every kept reference has a parent no step removes |
| `PublishSafety.ReplacedParentBreaksKey` | packages/server/src/draft-publication.ts:246-348 | where the condition fails: replacing a parent row whose child is untouched leaves the child without a parent between the two steps of the only order |
| `PublishSafety.MovedCodeBreaksKey` | packages/server/src/draft-publication.ts:246-348 | and: when a referenced value moves from one parent to another, the order leaves the child without a parent, and the other order gives two parents one value |
| `RowRevisions.WritesAdvance` | packages/db/src/row-revisions.ts:105-161 | each write strictly advances an identity's version, a lock leaves it |
| `RowRevisions.RunAdvances` | packages/db/src/row-revisions.ts:105-161 | over any run the version grows exactly when something was written |
| `RowRevisions.RevisionsStrictlyIncrease` | packages/db/src/row-revisions.ts:105-161 | a later write shows a larger revision, deletes and re-inserts included |
| `RowRevisions.AcceptedIffUnwritten` | packages/server/src/draft-review-state.ts:150-224 | the publish check accepts an anchor exactly when no tracked write has committed since first touch |
| `RowRevisions.PresenceAloneMissesReplacement` | packages/server/src/draft-review-state.ts:186-215 | a replaced row passes the presence check of a table without a revision column and fails the revision check; the replay comparison is what guards the former (`DraftReview.MatchedIsAnchored`) |
| `CanonicalWrites.TrackedDb.LockRowRevision` | packages/db/src/row-revisions.ts:105-118 | reserve the entry, keeping the one there is |
| `CanonicalWrites.TrackedDb.AllocateRowRevision` | packages/db/src/row-revisions.ts:121-140 | the next token, one past the entry or one |
| `CanonicalWrites.TrackedDb.PreserveRowRevision` | packages/db/src/row-revisions.ts:143-161 | the entry is raised to the visible revision, never lowered |
| `CanonicalWrites.TrackedDb.Insert` | packages/db/src/tracker-factory.ts:110-140 | a batch acts at each of its keys as one row insert, with the next token of the identity, or fails whole on a duplicate key; the tables stay valid |
| `CanonicalWrites.TrackedDb.Update` | packages/db/src/select-builder.ts:268-290 | each matching row is patched and bumped by one, an empty patch does nothing, and the tables stay valid |
| `CanonicalWrites.TrackedDb.Delete` | packages/db/src/select-builder.ts:292-330 | each matching row goes, its last revision stays in the ledger, and the tables stay valid |
| `CanonicalWrites.ApplyMovesIdentity` | packages/db/src/row-revisions.ts:105-161 | an insert, update, delete or lock of one row moves its identity as the ledger model says, and keeps row and identity well formed |
| `CanonicalWrites.RunMovesIdentity` | packages/db/src/row-revisions.ts:105-161 | so does any sequence of them |
| `CanonicalWrites.TrackedDb.Run` | packages/db/src/tracker-factory.ts:110-140 | over any run of tracked statements the row and ledger entry of every target are those of the row operations on it, and its identity is the one the ledger model reaches |
| `Publication.ResolvedRow` | packages/server/src/draft-publication.ts:170-225 | the anchors rebuild the canonical row and the final row is complete |
| `Publication.FinalFromValues` | packages/server/src/draft-publication.ts:190-199 | the proposed values and the desired revision make up the row the draft view showed |
| `Publication.AdvanceReviewedRevision` | packages/server/src/draft-publication.ts:350-393 | the loop stops, never overshoots, and succeeds exactly when the row is at or below the goal and has values to climb by |
| `Publication.RemoveReviewedRow` | packages/server/src/draft-publication.ts:402-405 | the row goes and its revision stays in the ledger |
| `Publication.InsertReviewedRow` | packages/server/src/draft-publication.ts:406-413 | the inserted row ends at exactly the reviewed revision, unless nothing but the revision could climb |
| `Publication.UpdateReviewedRow` | packages/server/src/draft-publication.ts:410-413 | the updated row ends at exactly the reviewed revision, unless the change proposes nothing else |
| `Publication.NoValuesIsRevisionOnly` | packages/server/src/draft-publication.ts:190-191 | the values are empty exactly when only the revision is proposed |
| `PublishChanges.ApplyReviewedChangeStep` | packages/server/src/draft-publication.ts:395-414 | one step takes its target from where it is to where the step says, and fails exactly for an unpublishable change |
| `PublishChanges.ProgressIsRun` | packages/server/src/draft-publication.ts:417-432 | the rows between two steps are the state the executed prefix reaches |
| `PublishChanges.PublishStep` | packages/server/src/draft-publication.ts:429-431 | one pass of the loop advances exactly its own step |
| `PublishChanges.ApplyReviewedChanges` | packages/server/src/draft-publication.ts:417-432 | if the changes still match their anchors, publication fails exactly on a foreign-key cycle or an unpublishable change, and otherwise leaves every row as the draft view showed it |
| `PublishChanges.AllStepsPublish` | packages/server/src/draft-publication.ts:417-432 | with every step done each target shows its effective row, its revision included, and no other row has moved |
| `PublishChanges.PublicationIsSafeIff` | packages/server/src/draft-publication.ts:246-432 | between any two steps of a publication a foreign key holds if and only if kept references have kept parents |
| `PublishChanges.AllTags` | packages/server/src/draft-publication.ts:417-432 | over the whole order the steps write exactly the tables of the changes that have something to write |
| `PublishedRuns.PublicationIsRun` | packages/server/src/draft-publication.ts:360-415 | publishing a change moves row and ledger entry exactly as a run of tracked writes of that row |
| `PublishedRuns.PublicationIsRuns` | packages/server/src/draft-publication.ts:417-432 | a whole publication is, at every target, such a run, and none where nothing is published |
| `PublishedRuns.PublicationAdvances` | packages/server/src/draft-publication.ts:395-415 | the version of every published row moves forward, and a row that is deleted leaves its last visible revision in the ledger |
| `PublishedRuns.RewrittenIffAdvanced` | packages/db/src/row-revisions.ts:143-161 | over a run of tracked writes the version grows exactly if the row is written |
| `DraftHistory.RewrittenIffAnyWrite` | packages/db/src/row-revisions.ts:105-161 | on a revisioned table a row has been written since its first touch exactly if the ledger model saw a write |
| `DraftHistory.UnwrittenStays` | packages/db/src/row-revisions.ts:105-118 | locks aside, a row nobody writes keeps its row and ledger entry |
| `DraftHistory.ObserveKeeps` | packages/db/src/row-revisions.ts:105-161 | a tracked statement or another draft's lock keeps a change traced to its first touch |
| `DraftHistory.TouchKeeps` | packages/db/src/draft-mutations.ts:331-358 | so does every write of the draft itself, whatever has happened to the row in between |
| `DraftHistory.RunsKeep` | packages/db/src/draft-mutations.ts:331-358 | in every run that interleaves the draft's statements, tracked statements and other drafts' locks, every change records the first touch of its row and is anchored to it unless a tracked statement has written it since |
| `DraftHistory.Run` | packages/db/src/draft-mutations.ts:331-358 | executing any such run takes those steps, one statement after another |
| `DraftHistory.OwnRunIsAnchored` | packages/server/src/draft-lifecycle.ts:476-483 | a fresh draft written while nothing else moves is anchored to the rows as they stand, with or without a revision column |
| `DraftReview.AssertDraftRowsUnchanged` | packages/server/src/draft-review-state.ts:150-224 | the conflicts are exactly those of the changed rows, each with its reason |
| `DraftReview.AcceptedIsUntouched` | packages/server/src/draft-review-state.ts:186-215 | the check accepts a traced change exactly if nothing has written its row since, and the row and ledger entry are then the ones the draft first saw |
| `DraftReview.ConflictIffRewritten` | packages/server/src/draft-review-state.ts:186-215 | in every run, a changed row of a revisioned table conflicts exactly if a tracked statement has written it since the draft first touched it |
| `DraftReview.ConflictSaysWhy` | packages/server/src/draft-review-state.ts:198-215 | in every run a conflict reads `created` exactly if the row was absent at first touch and is there now, `deleted` the other way round, and `revision` exactly if a row of a revisioned table was written and is as present as before |
| `DraftHistory.FirstWriteRecordsFirstTouch` | packages/db/src/draft-mutations.ts:202-236 | the first write of a draft to a row records that row's presence and revision |
| `DraftHistory.FirstWriteShowsTrackedRow` | packages/db/src/draft-mutations.ts:177-240 | the first write of a draft to a row shows, revision included, the row the tracked statement it stands for would store; so does an insert over a row the draft has deleted |
| `DraftReview.AcceptedIsStillAnchored` | packages/server/src/draft-review-state.ts:150-224 | what the check accepts on a revisioned table, publication may apply |
| `DraftReview.MatchedIsAnchored` | packages/server/src/draft-publication.ts:60-103 | on a table without a revision column, a change that agrees with one anchored to the row is anchored to it |
| `DraftReview.AcceptedIsReviewed` | packages/server/src/draft-lifecycle.ts:469-489 | on tables of either kind, a change that passes the check and agrees with the replay may be applied |
| `DraftReview.AcceptedIsPublishable` | packages/server/src/draft-lifecycle.ts:469-489 | an accepted draft whose statements named columns holds no change that cannot be published |
| `DraftReview.ReplayReviewed` | packages/server/src/draft-lifecycle.ts:476-485 | the commands run on a fresh draft over the same tables, and the differences are those between what it wrote and what was reviewed |
| `DraftReview.Publish` | packages/server/src/draft-lifecycle.ts:458-500 | check, replay, comparison, application: each way to fail has its exact condition and leaves the tables as they were; success leaves every row as the draft showed it over the very rows it was written on, every ledger entry where a run of tracked writes takes it, and exactly the tags of what was written; drift is impossible if the statements named columns |
| `DraftReview.WriteAndPublish` | packages/server/src/draft-lifecycle.ts:385-500 | the same from an empty draft, over any run that interleaves its statements with tracked statements: a conflict whenever a row of a revisioned table was written since the draft touched it, and only then when all tables are revisioned; success moves rows and ledger by runs of tracked writes, and the tags are those of the run and of the publication |
| `DraftReview.OtherDraftsSee` | packages/server/src/draft-lifecycle.ts:476-500 | no ABA across a publication: every other draft conflicts on a row of a revisioned table exactly if it did before or the publication published that row |
| `DraftReview.PublishBeside` | packages/server/src/draft-lifecycle.ts:458-500 | the same of two drafts on the same tables, one of which is published, whatever the outcome |
| `DraftReview.AssertReplayMatchesReviewedChanges` | packages/server/src/draft-publication.ts:60-103 | one difference for each target on which the replay and the review disagree, of the first kind that applies |
| `DraftReview.AgreeIffSame` | packages/server/src/draft-publication.ts:83-100 | no difference exactly when operation, anchors and proposals agree, the proposals of a delete aside |
| `DraftReview.DifferenceSaysWhich` | packages/server/src/draft-publication.ts:83-100 | the kind of a difference: a missing side exactly if one is missing, a value exactly if operations or proposals differ field by field, an anchor exactly if only what was read differs |
| `DraftReview.MatchingReplayShowsTheSameRows` | packages/server/src/draft-publication.ts:60-103 | a replay without a difference shows every row as the reviewed changes do |
| `CommandLog.CompactLog` | packages/server/src/draft-command-log.ts:17-56 | the single pass over three position maps computes the reference fold |
| `CommandLog.RecordIsAbsorb` | packages/server/src/draft-command-log.ts:22-40 | one step of the pass is one step of the fold |
| `CommandLog.CollectIndices` | packages/server/src/draft-command-log.ts:42-48 | the surviving indices are exactly those recorded in the maps |
| `CommandLog.SurvivorsAreKept` | packages/server/src/draft-command-log.ts:42-55 | the final filter keeps exactly the surviving commands |
| `CommandLogSurvivors.CompactedIsWhatStays` | packages/server/src/draft-command-log.ts:17-56 | the compacted log holds exactly, in order: unkeyed commands; creates and updates that no create or delete of their key follows; and deletes that end no standing create, up to the next such delete |
| `CommandLogMeaning.CompactionIsIdempotent` | packages/server/src/draft-command-log.ts:22-56 | compacting twice is compacting once |
| `CommandLogMeaning.CompactionIsIncremental` | packages/server/src/draft-command-log.ts:22-56 | compacting a compacted log followed by a batch equals compacting both from scratch |
| `CommandLogMeaning.CompactionKeepsOrderAndUnkeyed` | packages/server/src/draft-command-log.ts:17-56 | the result is a subsequence that keeps every unkeyed command |
| `CommandLogMeaning.CompactionPreservesMeaning` | packages/server/src/draft-command-log.ts:17-56 | a log valid from a state stays valid when compacted and ends in the same state |
| `CommandLogMeaning.OverwritingCreateIsNotPreserved` | packages/server/src/draft-command-log.ts:26-28 | why validity is needed: a create over a present cell can compact to a different state |
| `CommandLogMeaning.DropFrame` | packages/server/src/draft-command-log.ts:26-39 | forgetting a key's creates and updates changes that cell only |
| `DraftStore.StoredLogReadsBack` | packages/server/src/draft-store.ts:340-370 | the log stored by position is read back whole and in order |
| `DraftStore.StoredDraft.ReplaceStoredCommands` | packages/server/src/draft-store.ts:352-370 | after the upserts and the final delete the rows hold exactly the new log |
| `DraftStore.StoredDraft.ReadStoredCommands` | packages/server/src/draft-store.ts:340-350 | the commands in position order |
| `DraftStore.StoredDraft.RefreshStoredDraftIntegrityAndAdvance` | packages/server/src/draft-store.ts:401-417 | at the expected revision only: fresh hash, revision one higher |
| `DraftStore.StoredDraft.ReplaceStoredDraftBase` | packages/server/src/draft-store.ts:480-501 | the same with a new base version |
| `DraftStore.StoredDraft.DeleteStoredDraftAtRevision` | packages/server/src/draft-store.ts:511-524 | the draft is removed exactly at the expected revision |
| `DraftStore.StoredDraft.CommitAppend` | packages/server/src/draft-store.ts:401-417 | at the revision it read the log, rows and hash all land; at any other nothing does |
| `DraftStore.StoredDraft.Append` | packages/server/src/draft-lifecycle.ts:393-437 | an append lands at its first attempt no rival beats, of at most five: the log is then the compaction of all that was appended, rivals included, over the rows, and the base version, the rivals left; a damaged draft is refused untouched, a discarded one not found |
| `Lifecycle.StepKeepsInv` | packages/server/src/draft-lifecycle.ts:381-627 | every step of every operation keeps the protocol invariant |
| `Lifecycle.StoredLogIsWhatCommitted` | packages/server/src/draft-lifecycle.ts:381-438 | in every reachable state the stored log is the compaction of the committed batches in commit order, under its hash |
| `Lifecycle.StoredRowsAreWhatCommitted` | packages/server/src/draft-lifecycle.ts:381-438 | in every reachable state each row of the draft is what the last committed operation that wrote it left, and a row none wrote is not there |
| `Lifecycle.BaseVersionIsOfLastRebase` | packages/server/src/draft-lifecycle.ts:588-622 | in every reachable state the base version is that of the last committed rebase, or the one opened with; no append moves it |
| `Lifecycle.AppendedExactlyOnce` | packages/server/src/draft-lifecycle.ts:393-437 | an append that reports success is in the history exactly once; no other is |
| `Lifecycle.EveryCommitIsCurrent` | packages/server/src/draft-lifecycle.ts:421-424 | a mutation commits only against the revision, log and rows it read |
| `Lifecycle.RemovedAtItsSnapshot` | packages/server/src/draft-lifecycle.ts:440-547 | a draft is removed once, at its snapshotted revision, and a publication covered everything committed |
| `Lifecycle.IntegrityChecksPass` | packages/server/src/draft-store.ts:372-385 | in every interleaving an integrity check fails only when the draft is gone |
| `Lifecycle.TamperingIsDetected` | packages/server/src/draft-store.ts:34-69 | rows edited behind the lifecycle fail the next check |
| `Lifecycle.ConflictMeansProgress` | packages/server/src/draft-lifecycle.ts:393-437 | a lost conditional update means another operation committed; an append retries up to its cap |
| `Lifecycle.RebaseRebuildsRows` | packages/server/src/draft-lifecycle.ts:588-622 | a committed rebase stores the version it was asked for and exactly the rows its replay wrote, and leaves the log alone |
| `LockOrder.CompareUtf8Bytes` | packages/db/src/row-revisions.ts:57-64 | the sign is the byte order, zero exactly on equality |
| `LockOrder.CompareRowRevisionSortKeys` | packages/db/src/row-revisions.ts:80-89 | the sign is the order of table, tenant and row keys |
| `LockOrder.OrderIsStrictAndTotal` | packages/db/src/row-revisions.ts:57-89 | any two keys are equal or ordered one way |
| `LockOrder.OrderIsTransitive` | packages/db/src/row-revisions.ts:57-89 | the order is transitive |
| `LockOrder.WaitingClimbs` | packages/db/src/select-builder.ts:305-310 | along the waits-for relation the wanted identity strictly climbs |
| `LockOrder.NoWaitingCycle` | packages/db/src/select-builder.ts:305-310 | in every run of sorted batches the waits-for graph has no cycle |
| `LockOrder.SomeWriterCanStep` | packages/db/src/select-builder.ts:305-310 | while a batch is running some batch can take its next lock or finish |
| `LockOrder.EveryBatchCanCommit` | packages/db/src/select-builder.ts:305-310 | from every reachable state all running batches can commit, none being rolled back |
| `LockOrder.SchedulesAreBounded` | packages/db/src/select-builder.ts:305-310 | however they are scheduled, running batches stop after a bounded number of moves |
| `LockOrder.OppositeOrdersDeadlock` | packages/db/src/row-revisions.ts:57-89 | without the order two batches can stop each other |
| `StableJson.EscapeReadsBack` | packages/server/src/stable-json.ts:8 | a quoted string reads back, by the rules of JSON, as the string that was quoted |
| `StableJson.QuoteIsDecodable` | packages/server/src/stable-json.ts:8 | a quoted string ends where it seems to and says which string it is, lone surrogates included |
| `StableJson.ValuesSeparate` | packages/server/src/stable-json.ts:6-16 | no encoded value can be mistaken for the beginning of another |
| `StableJson.EqualTextsAreSame` | packages/server/src/stable-json.ts:6-16 | equal texts come from the same values |
| `StableJson.SameHasEqualText` | packages/server/src/stable-json.ts:11-15 | the order of object keys does not show |
| `StableJson.StableJsonIsCanonical` | packages/server/src/stable-json.ts:6-16 | two values have equal texts if and only if they are the same up to object key order, the zeros identified and non-finite numbers null |
| `StableJson.TextIsPrintable` | packages/server/src/stable-json.ts:6-16 | an encoded value holds no control unit |
| `StableJson.TargetsNeverCollide` | packages/server/src/draft-publication.ts:28-30 | two row targets are equal exactly when table, tenant and row are |
| `StableJson.TuplesNeverCollide` | packages/server/src/draft-publication.ts:227-235 | two foreign-key tuples are equal exactly when they are part by part |
| `StableJson.DateIsNotItsText` | packages/server/src/stable-json.ts:8-9 | an instant is never the string that spells it |
| `ClientEngine.Engine.Close` | packages/client/src/engine.ts:331-365 | a close of the current generation takes the engine down, rejects every pending call, and retries or latches; an older one does nothing |
| `ClientEngine.Engine.Send` | packages/client/src/engine.ts:244-252 | the frame is out, or the pipe is closed and the engine down |
| `ClientEngine.Engine.SendAll` | packages/client/src/engine.ts:226-231 | every subscription is sent in order while the pipe lasts |
| `ClientEngine.Engine.RejectAll` | packages/client/src/engine.ts:161-166 | every pending call is settled and none is left |
| `ClientEngine.Engine.Refuse` | packages/client/src/engine.ts:176-200 | a subscription error is retried up to the cap, and otherwise drops the subscription and tells its owner |
| `ClientEngine.Engine.Receive` | packages/client/src/engine.ts:254-329 | each message takes its step: what that means for calls, handlers and subscriptions is `ClientOutcomes`, `ClientNotices` and `ClientRegistry` |
| `ClientEngine.Engine.AckTimeoutFires` | packages/client/src/engine.ts:367-379 | a timeout of the current generation closes the pipe with a retryable close |
| `ClientEngine.Engine.Connect` | packages/client/src/engine.ts:381-385 | a new generation starts only with no pipe, no attempt and no refused credential |
| `ClientEngine.Engine.ResumeWithToken` | packages/client/src/engine.ts:394-397 | after the token: go on only if still current |
| `ClientEngine.Engine.ResumeWithPipe` | packages/client/src/engine.ts:399-409 | after the pipe: hold it, or close it when it is no longer wanted |
| `ClientEngine.Engine.ResumeReady` | packages/client/src/engine.ts:411-453 | after the carrier is ready: authenticate or replay subscriptions, or give up |
| `ClientEngine.Engine.Disconnect` | packages/client/src/engine.ts:455-475 | a new generation with nothing held, and the latch cleared |
| `ClientEngine.Engine.AddSubscription` | packages/client/src/engine.ts:477-499 | registered always, sent when authenticated |
| `ClientEngine.Engine.RemoveSubscription` | packages/client/src/engine.ts:501-509 | forgotten always, sent when authenticated |
| `ClientEngine.Engine.Request` | packages/client/src/engine.ts:511-546 | a fresh id for every call that is accepted; a send that throws rejects that call alone |
| `ClientEngine.Engine.Drive` | packages/client/src/engine.ts:124-564 | any sequence of calls, messages, timers and resumed awaits takes the steps of the state machine |
| `ClientSafety.StepKeepsInv` | packages/client/src/engine.ts:124-564 | every event keeps the client invariant |
| `ClientSafety.CloseKeeps` | packages/client/src/engine.ts:331-365 | a close leaves the engine down or changes nothing |
| `ClientSafety.SendEachKeeps` | packages/client/src/engine.ts:226-231 | a replay that keeps its pipe has told the server of every subscription |
| `ClientSafety.EveryCallSettlesOnce` | packages/client/src/engine.ts:511-546 | in every reachable state each issued id is pending and unsettled, or settled exactly once |
| `ClientSafety.PendingCallsHaveAPipe` | packages/client/src/engine.ts:511-546 | calls are pending only on the held pipe of the current generation |
| `ClientSafety.HandlerIsOnTheHeldPipe` | packages/client/src/engine.ts:202-211 | the message handler is on exactly the held pipe: none is left on a pipe that was dropped |
| `ClientSafety.OldPipesAreInert` | packages/client/src/engine.ts:331-350 | a close, failed send or message of an older pipe settles nothing and moves nothing |
| `ClientSafety.AuthenticatedPipeCarriesSubscriptions` | packages/client/src/engine.ts:477-509 | while authenticated, the last frame about each subscription on the held pipe has its latest path and arguments |
| `ClientSafety.HandlersMatchSubscriptions` | packages/client/src/engine.ts:176-200 | handler ids are the subscription ids, and resting retry counts are within the cap |
| `ClientSafety.RefusedUntilDisconnect` | packages/client/src/engine.ts:349-384 | after a 4001 close no pipe opens and nothing is sent, in any run, until disconnect |
| `ClientSafety.RefusalIsReported` | packages/client/src/engine.ts:349-362 | that close tells every handler |
| `ClientSafety.TimersBreakIffAuthRefused` | packages/client/src/engine.ts:431-439 | a step leaves an acknowledgement timer nobody can clear exactly when the carrier throws on an auth frame |
| `ClientSafety.NoTimerOutlivesAuthentication` | packages/client/src/engine.ts:154-159 | in a run whose auth frames all go out, an authenticated engine has no acknowledgement timer left |
| `ClientSafety.StaleTimerDropsAuthenticatedPipe` | packages/client/src/engine.ts:431-439 | a carrier that throws on an auth frame leaves a timer that can cost a later, authenticated attempt its pipe |
| `ClientOutcomes.StepTells` | packages/client/src/engine.ts:254-365 | every step ends exactly the calls it is about, with the outcome that belongs to it, and revises no other |
| `ClientOutcomes.OutcomeIsVerdict` | packages/client/src/engine.ts:254-365 | in every run a call has an outcome exactly if one event ended it, and it is that event's: the result's data, the error frame's reason, or that of the lost pipe, the disconnect or the send |
| `ClientOutcomes.ResolvedIffAnswered` | packages/client/src/engine.ts:288-297 | in every run a call resolves with some data exactly if the held pipe delivered that result for it while it was pending |
| `ClientNotices.StepHeard` | packages/client/src/engine.ts:176-365 | every event lets exactly this be heard: an invalidated id that has a handler, that id alone; every handler after a 4001 close; the error handler of a dropped subscription; the one frame that a call, an unsubscription or an authentication is for |
| `ClientNotices.HeardIsWhatHappened` | packages/client/src/engine.ts:124-564 | in every run what is heard is that, event by event, in order |
| `ClientNotices.KindsAndTokensAreAsGiven` | packages/client/src/engine.ts:394-439 | in every run a pending call is of the kind it was asked for as, and an attempt authenticates with the token its own `getToken` gave |
| `ClientRegistry.StepFollows` | packages/client/src/engine.ts:176-200 | every event leaves each subscription known by the path, arguments and error handler last asked for and the retries used up since, in insertion order |
| `ClientRegistry.RunFollows` | packages/client/src/engine.ts:477-509 | in every run what is known of an id depends on the calls and frames about that id alone |
| `ClientReconnect.BrokenPipeIsRetried` | packages/client/src/engine.ts:331-379 | a pipe that closes, rejects a send, misses its acknowledgement or never gets ready is dropped with every pending call, for good after 4001 and otherwise to be tried again |
| `ClientReconnect.PipeIsLostIff` | packages/client/src/engine.ts:331-379 | as long as sends go out, nothing but these and a disconnect takes the pipe |
| `ClientReconnect.AttemptsAreCounted` | packages/client/src/engine.ts:213-224 | the backoff count is the number of retries scheduled since the last message |
| `ClientReconnect.StopsIffGivesUp` | packages/client/src/engine.ts:381-453 | a step stops an engine from trying exactly if it is a disconnect, or the carrier of the attempt in flight settles after its pipe was lost and its retry has already fired |
| `ClientReconnect.ConnectKeepsTrying` | packages/client/src/engine.ts:381-453 | in every run without these two, an engine told to connect holds a pipe, has an attempt in flight or a retry scheduled, or was refused |
| `ClientReconnect.SlowCarrierStrandsEngine` | packages/client/src/engine.ts:411-422 | the second can happen: nobody disconnects, and the engine ends without a pipe, an attempt or a retry |
| `ServerAttachment.Attachment.ClearSubscriptionOwnership` | packages/server/src/engine/engine.ts:154-159 | the connection's own entry for an id goes; another's stays |
| `ServerAttachment.Attachment.StartSubscribeAttempt` | packages/server/src/engine/engine.ts:161-166 | a fresh token replaces the pending one and clears the old entry |
| `ServerAttachment.Attachment.FinishSubscribeAttempt` | packages/server/src/engine/engine.ts:172-174 | only the current token is dropped |
| `ServerAttachment.Attachment.HandleSubscribe` | packages/server/src/engine/engine.ts:365-384 | an attempt starts, or is refused at once for an unknown query |
| `ServerAttachment.Attachment.ResumeWithContext` | packages/server/src/engine/engine.ts:386-404 | after the context: answer a failure, bail out, or go on to the query |
| `ServerAttachment.Attachment.ResumeWithQuery` | packages/server/src/engine/engine.ts:406-433 | after the query: register and acknowledge, answer a failure, or bail out |
| `ServerAttachment.Attachment.HandleUnsubscribe` | packages/server/src/engine/engine.ts:441-447 | the pending attempt is cancelled and the entry removed |
| `ServerAttachment.Attachment.TearDown` | packages/server/src/engine/engine.ts:181-195 | once: every entry of the connection is removed and no attempt stays current |
| `ServerEngine.StepKeepsInv` | packages/server/src/engine/engine.ts:150-195 | every event of every connection keeps the ownership and token invariant |
| `ServerEngine.OnlyTheNewestAttemptRegisters` | packages/server/src/engine/engine.ts:406-420 | a completing query adds an entry exactly when its attempt is the newest uncancelled one for the id |
| `ServerEngine.SupersededAttemptsAreSilent` | packages/server/src/engine/engine.ts:386-433 | a superseded or cancelled attempt changes nothing and sends no reply, however it ends |
| `ServerEngine.StepReplies` | packages/server/src/engine/engine.ts:365-433 | in every run a step answers exactly: an unknown query for good, the newest attempt whose context or query threw with `retryable` exactly if the error is not permanent, and the newest whose query returned with an acknowledgement |
| `ServerEngine.EntriesWereAskedFor` | packages/server/src/engine/engine.ts:406-420 | in every run each entry runs the query, with the arguments, that its own connection asked for under its id |
| `ServerEngine.ConnectionsHoldTheirEntries` | packages/server/src/engine/engine.ts:150-195 | a connection's ids are those of its entries, and every attempt has at most one reply |
| `ServerEngine.NothingReturnsAfterTeardown` | packages/server/src/engine/engine.ts:181-195 | after teardown none of its entries is left or comes back in any run |
| `SubscriptionStore.InMemoryStore.Add` | packages/server/src/engine/subscription-store.ts:58-60 | register or replace by id, as a fresh instance |
| `SubscriptionStore.InMemoryStore.GetAffected` | packages/server/src/engine/subscription-store.ts:70-81 | exactly the live entries that read a written table, each once |
| `InvalidationRouter.Router.OnInvalidation` | packages/server/src/engine/invalidation-router.ts:144-155 | one recompute is chained onto each affected entry |
| `InvalidationRouter.Router.StartLink` | packages/server/src/engine/invalidation-router.ts:89-107 | a dead entry is skipped, a live one recomputed |
| `InvalidationRouter.Router.FinishRecompute` | packages/server/src/engine/invalidation-router.ts:106-142 | only a live entry is updated and sent its frame, after a failure too |
| `InvalidationRouter.Router.FinallyLink` | packages/server/src/engine/invalidation-router.ts:157-164 | a tail is dropped only while it is the last link |
| `InvalidationRouter.StepKeepsInv` | packages/server/src/engine/invalidation-router.ts:63-167 | every event keeps the chains ordered and the counts matched |
| `InvalidationRouter.OneRecomputeInFlight` | packages/server/src/engine/invalidation-router.ts:144-165 | at most one recompute of an instance is in flight, in arrival order |
| `InvalidationRouter.FramesOnlyWhenLive` | packages/server/src/engine/invalidation-router.ts:129-142 | a frame is sent only while its instance is the live one, after all earlier frames of its chain |
| `InvalidationRouter.LinksCountHits` | packages/server/src/engine/invalidation-router.ts:144-155 | each write chains one recompute onto every instance it hits, and nothing else does |
| `InvalidationRouter.OneFramePerHit` | packages/server/src/engine/invalidation-router.ts:63-167 | in every run a live entry whose chain has drained has had exactly one frame for each write that hit it |
| `InvalidationRouter.EntryWatchesWhatItReadLast` | packages/server/src/engine/invalidation-router.ts:106-142 | in every run a live entry is as registered, except that it watches the tables of the last recompute of its instance that succeeded while it was live |
| `InvalidationRouter.HitIffReadLast` | packages/server/src/engine/invalidation-router.ts:144-155 | hence a write hits a live entry exactly if it writes a table that entry read last |
| `InvalidationRouter.ChainsNeverBlockEachOther` | packages/server/src/engine/invalidation-router.ts:144-165 | a chain with work left always has a link in flight or ready, whatever other chains do |
| `Session.RequestDependsOnTokenAlone` | packages/server/src/engine/session.ts:59-67 | the request shows the frame's token and nothing of an inherited credential |
| `Session.AuthSession.BeginAuth` | packages/server/src/engine/session.ts:155-168 | an authenticated session acknowledges at once; otherwise the context is resolved from the frame's own token |
| `Session.AuthSession.ResumeAuth` | packages/server/src/engine/session.ts:169-201 | the first success commits its token; any later frame only acknowledges |
| `Session.AuthSession.ResolveSubContext` | packages/server/src/engine/session.ts:136-139 | later requests carry the credential of the frame that committed and none if none did, and every other header of the connection |
| `Session.AtMostOneCommits` | packages/server/src/engine/session.ts:155-201 | in every run at most one frame commits, and the session's token is that frame's |
| `Session.CommitIsFinal` | packages/server/src/engine/session.ts:155-201 | once authenticated a session keeps its token and winner, and no later frame closes it |
| `Session.AnswerIsOfItsContext` | packages/server/src/engine/session.ts:169-201 | in every run a frame is closed as transient, closed as failed, or commits, exactly if its context was unavailable, rejected or resolved while nobody had authenticated |
| `Session.FramesPresentTheirTokens` | packages/server/src/engine/session.ts:155-165 | in every run there is one frame for each token off the wire, in order, with that token's credential |
| `Transactions.CommittedIffAllTheWayUp` | packages/db/src/tracker-factory.ts:217-243 | a statement survives exactly when every transaction around it commits |
| `Transactions.TagsAreOfCommittedWrites` | packages/db/src/tracker-factory.ts:229-241 | the tags that reach the outermost tracker are those of writes with only committed transactions around them |
| `Transactions.Tracker.Run` | packages/db/src/tracker-factory.ts:217-243 | rows and tags after any tree of statements and nested transactions are those of the statements that commit all the way up |
| `Transactions.Tracker.Transaction` | packages/db/src/tracker-factory.ts:217-243 | a rolled-back transaction leaves rows and tags as they were; a committed one adds both |
| `Transactions.ApplyAll` | packages/server/src/apply-commands.ts:356-377 | commands run in order on one tracker, each seeing the rows of those before it, until one throws |
| `Transactions.ResultsAnswerCommands` | packages/server/src/apply-commands.ts:356-377 | results answer the commands one for one, in order and under their ids, each from the rows all earlier commands left, up to the first that throws; the error is that command's |
| `Transactions.CommitCommands` | packages/server/src/apply-commands.ts:236-303 | a batch is all or nothing in rows and tags, on its own or inside a caller's transaction |
| `Transactions.PreviewCommands` | packages/server/src/apply-commands.ts:305-340 | a preview reports the batch and leaves rows and tags as they were |
| `Transactions.PreviewThenCommit` | packages/server/src/apply-commands.ts:221-340 | the commit that follows a preview reports what the preview did |
| `Transactions.ReportedTagsWereCommitted` | packages/server/src/apply-commands.ts:356-377 | every reported tag was written by one of the commands with only committed transactions around it |
| `IdentityCodec.IntegerReadsBack` | packages/db/src/identity-codec.ts:36-50 | a printed integer is read back as itself |
| `IdentityCodec.UuidReadsBack` | packages/db/src/identity-codec.ts:12-34 | a canonical uuid is read back as its digits |
| `IdentityCodec.UuidForm` | packages/db/src/identity-codec.ts:24-33 | an accepted uuid is printed as 8-4-4-4-12 lower-case digits |
| `IdentityCodec.RangesAreWords` | packages/db/src/identity-codec.ts:40-46 | each integer type accepts the two's-complement range of its width |
| `IdentityCodec.CanonicalizationIsIdempotent` | packages/db/src/identity-codec.ts:7-59 | canonicalizing the text or the value of an identity gives the identity again |
| `IdentityCodec.AcceptedIffDenotes` | packages/db/src/identity-codec.ts:7-59 | a spelling is accepted exactly when it denotes a value of the type |
| `IdentityCodec.SameIdentityIffSameDenotation` | packages/db/src/identity-codec.ts:7-59 | two spellings share an identity exactly when they denote the same value |

## Left out

- SQL text, Drizzle objects, driver codecs, collations and the JSON storage of drafts: a row is a map, a
  filter a predicate, a statement one atomic step, and the order of values an abstract total order.
- Tenants: a table stands for one tenant's slice of it, and row keys are already canonical.
- The md5 hash is taken to be injective, so a digest is the record it covers.
- Authorization, ownership, graph validation hooks and the version probe of rebase: they only stop an
  operation before or between the steps that are modelled. The publishers' mutex is not needed by any of
  the lifecycle theorems and is not modelled.
- `describeTouchedTables`, `assertStoredDescriptorsCurrent` and `enumerateTouchedCells`: the schema of a
  table does not change between append and publish in this model.
- The stored descriptors of touched tables, which the integrity hash also covers: the digest here is of the
  log and the row changes.
- `snapshotJsonValue`: command arguments are opaque, so nothing here depends on how they are copied.
- Real timers, jitter, backoff delays and promises: their firing is a step that may come at any time, and
  that an attempt or a timer ever settles is not claimed.
- Callbacks that call back into the client engine from inside a handler: handlers are taken to return
  before the next event.
- HTTP routes, WebSocket and Electron adapters, React hooks, identity providers, permissions and logging.
- Unsorted multi-row canonical inserts and multi-statement handlers in the deadlock property: the code retries
  those instead of ordering them.
- StableJson.StableJsonIsCanonical: a finite number is named by the text the language prints for it, which
  tells any two apart except the zeros; how that text is computed is not modelled.
- DraftSimulation.Run: the revision column is left aside, because an update, a delete and a re-insert in one
  draft plan another token than the canonical replay, and the canonical rows stand still; revisions and moving
  rows are the subject of `DraftHistory.Run` and `DraftReview.WriteAndPublish`.
- DraftSimulation.Apply: predicates over the revision column, for the same reason.
- DraftHistory.Run: a statement is one step of the run; that a tracked statement may commit between the
  candidate read and the locks of a draft statement is covered by `DraftTables.Draft.LockedWriteMatches`.
- The invalidation tags of the draft itself, which append, rebase, discard and publish emit for the tables it touched:
  the tags of the model are those of canonical writes.
- DraftReview.Publish: the commands appear as the draft statements their handlers issue, and the transaction
  is one step, so a concurrent insert into a table without a revision column, which no lock of the check
  holds back, is not part of it (it would fail the publication's own insert on the key).
- RowRevisions.PresenceAloneMissesReplacement: the replay comparison that also guards such a table is stated
  apart, in `DraftReview.MatchedIsAnchored`.
- CanonicalWrites.TrackedDb.Update: a patch names columns of its table; what the database library does with
  other properties is not part of this model.
- DraftTables.Draft.Insert: the lock order of the batch is a parameter; that it is the sorted one, and
  what that is good for, is stated in `LockOrder`.
- PublishOrder.OrderReviewedChangeSteps: unique constraints other than those a foreign key refers to are not
  ordered by the code and not checked by the model.
- Publication.AdvanceReviewedRevision: within one step the row passes through intermediate revisions; no
  foreign key is claimed to hold there for keys that include the revision column.
- SubscriptionStore.InMemoryStore.GetAffected: the entries come in some order, not in insertion order; entries
  of different instances do not interact.
- ServerEngine.ConnectionsHoldTheirEntries: subscription ids are used by one connection each; when two share
  one, replacement by id is intended and ownership does not hold.
- ClientEngine.Engine.Request: a call id is kept as the counter it prints in base 36.
- Transactions.CommitCommands: the function registry does not change during a batch, so the second check
  for actions always agrees with the first.
- RowRevisions.AcceptedIffUnwritten: revisions are unbounded integers; the column's 32-bit limit is not
  modelled.
- IdentityCodec.CanonicalizeIdentity: the type name is taken in lower case, and the error message is left out.
