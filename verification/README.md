# A verified model of mongokit's protocols, compilers and loops

mongokit is a repository layer over Mongoose. This project models the parts of it whose
guarantees span several calls or several callers, and proves them in Dafny 4.11. MongoDB is a
finite map from id to document; a driver call (`findOneAndUpdate`, `updateMany`, `deleteMany`,
an upsert) is one atomic step on that map, and everything between two of them may interleave.
A clock is a parameter read before the step it serves, so it may be stale when the step lands.

`dafny verify dfyconfig.toml` checks the whole project.

| file | what it models |
|---|---|
| `Idempotency.dfy` | the idempotency store: claim, progress, outcome, release, expiry of one key under any interleaving |
| `Lease.dfy` | the FIFO lease queue |
| `MongoLock.dfy` | the lease lock on client clocks that are off by at most eps |
| `RepositoryCas.dfy` | `claim`, `applyTransition`, `update` with `ifVersion`, `claimVersion` |
| `Cascade.dfy` | hard deletes running through cascade, detach and restrict relations, cyclic graphs included |
| `Like.dfy`, `FilterCompile.dfy` | LIKE to regular expression; Filter IR to query object and to aggregation expression |
| `Queries.dfy`, `QueryRewrites.dfy`, `CastSchema.dfy` | a query evaluator and the rewrites around it |
| `Keyset.dfy`, `Pagination.dfy` | cursor pagination: the keyset filter, one page, following `next`, paged search |
| `Purge.dfy` | the chunked purge port |
| `Watch.dfy` | the bridge from change-stream callbacks to an async iterator |
| `ImmutableStates.dfy` | the frozen-state guards |
| `Blueprint.dfy` | model registration and the transactional bind |

Each protocol has two halves. A *protocol* module holds the state machine: one step function per
atomic driver call, a run over an arbitrary list of events, and the theorems over all runs. A
module with a class holds the methods, written with the source's own branches and loops, each
proved to perform exactly the protocol's step.

## Where the code keeps less than it promises

Each of these has a lemma with a concrete input, a lemma saying exactly when the promise is kept,
or both.

- A claim whose `from` equals its `to` writes the caller's patch as given, so a patch naming the
  state field moves the row elsewhere, although the comment at src/Repository.ts:2043-2046 says
  nothing in the patch may overwrite the transition (`NoopClaimLeavesTarget`, `ClaimLandsInTarget`).
- From the second page on, keyset pagination drops the caller's own `$or`
  (`OrDroppedOnSecondPage`, `CallerOrIsDropped`), and with it the text of a regex search
  (`SearchIsDropped`, `SearchedPagesExactly`): without nulls the pages are right exactly when the
  `$or` rules out nothing behind the first page (`PagesAreRightExactly`, `OrDecides`). `lease`
  drops it always (`OwnOrIsDropped`, `PickedSatisfiesFilter`).
- src/pagination/utils/sort.ts:35-42 names nulls in a sort field a known limitation. Rows are lost
  exactly across a null (`KeysetFilterMeaning`, `DescendingNullIsLost`), never in an ascending sort
  by one field (`NothingOffPlainly`). Among nulls, descending by one field, the filter's own entry
  for `_id` is dropped (`Kept`).
- After its first chunk the purge port drops a top-level `_id` condition of the caller's filter
  and goes on to rows outside the cohort (`NextChunkLeavesCohort`, `IdTestIsDropped`; `PurgeIsExact`
  says when a run does). Its function-form anonymize does not re-assert the filter on the write as
  src/actions/purge.ts:78-81 says every write does (`FunctionalWriteLeavesCohort`; harmless exactly
  when `FunctionalWriteStays` says).
- A restrict refusal below the top level of a cascade is not undone (`RefusalMidCascade`):
  integrity is kept exactly by the calls that finish or are refused before they change anything, and
  a call finishes whenever no row in its reach is restrict-referenced (`Unrestricted`, in
  `Database.Delete` and `Database.DeleteMany`).
- Where one reachable row detaches a key that another cascades along, the detach can shield a row
  that is reachable by cascades (`DetachShieldsChild`); `RemovesExactlyReachable` holds when no
  reference is met by both.
- A bulk write of the purge port that throws may have reached part of its chunk, and the retry
  applies a replacer to its own result (`ReplacerAppliedTwice`). A row is written twice exactly
  when a throw had reached it and it still matched (`PortTimes`), and that is
  harmless exactly for strategies whose replacers answer the same on the row they wrote
  (`HarmlessExactly`, `RepeatableExactly`).
- The immutable-states guard reads a first match without the caller's sort (`SortedMatchThaws`,
  `SortedFirstMatch`) and lets a claim through whose `from` is an operator object or a list with a
  regular expression (`OperatorClaimThaws`, `OperatorClaim`).
- A filter with a string field named `op` is taken for Filter IR and not cast (`OpFieldIsNotCast`),
  and an operand under `$not` is passed through (`NotIsNotCast`). It matters exactly when such an
  operand and its cast differ in meaning (`MissedBesideOpTells`, `MissedNotTells`; `CastThenStrict`
  holds when the schema changes none of them).
- The expression compiler emits operands and patterns bare, so one that begins with `$` is read as
  a field path or variable (`DollarOperandDiffers`); exactly the leaves without such an operand
  always agree with their query on comparable fields (`AgreesExactlyWithoutDollars`).
- The comment at src/filter/compile-expr.ts:86-91 treats a missing field and null alike in
  expressions; "is null" is false there on a missing field (`MissingFieldDiffers`,
  `LeavesAgreeExactly`).
- The attempts ceiling is checked on a snapshot: callers stalled together pass it, by at most
  their number less one, and for every ceiling above one by as many (`StalledCallersPassTheCeiling`,
  `CeilingOvershoot`, `CeilingReached`, `CeilingKeptExactly`).
- A lease released as processing is stuck and breaks "processing iff leased" for good
  (`StuckForever`; exactly then, `RunKeepsInv`).
- The lock's hold counts from the instant its holder read the clock; counted from the later instant
  the call landed, a rival can succeed too early (`BoundIsTight`, `HeldUntilSafe`).
- A holder that lapses its own lease with a clock that stepped back lets a later lease overlap an
  earlier one (`ClockSteppingBackOverlaps`, `LeasesInOrder`).
- `claimVersion` with a step of zero can win twice with one version (`ZeroStepWinsAgain`).

## Model

| member | source | states |
|---|---|---|
| IdempotencyProtocol.StepKeepsInv | src/plugins/idempotency-store.plugin.ts:245-480 | every atomic step keeps: the newest lease is the stored one, attempts count the leases 1, 2, 3, ..., tokens of leases are distinct and not pending, the stored progress is the last saved |
| IdempotencyProtocol.RunKeepsInv | src/plugins/idempotency-store.plugin.ts:245-480 | the same over every interleaving of the claim methods |
| IdempotencyProtocol.AcquiredIsNumbered | src/plugins/idempotency-store.plugin.ts:316-339 | an acquisition is the newest lease, its `attempt` is its rank in write order, and a re-acquirer is given the last progress saved |
| IdempotencyProtocol.StepOrdered | src/plugins/idempotency-store.plugin.ts:258-342 | a step keeps the leases disjoint and ordered if and only if it writes no expiry before its lease's start |
| IdempotencyProtocol.LeasesInOrder | src/plugins/idempotency-store.plugin.ts:258-343 | over every run the stored lease intervals stay ordered, however stale the callers' clocks, if and only if every step is so disciplined |
| IdempotencyProtocol.NoInstantHeldTwice | src/plugins/idempotency-store.plugin.ts:313-325 | no instant lies in two leases of an ordered history |
| IdempotencyProtocol.ClockSteppingBackOverlaps | src/plugins/idempotency-store.plugin.ts:460-480 | without the discipline two leases do overlap: a run that shows it |
| IdempotencyProtocol.OutcomeIsFinal | src/plugins/idempotency-store.plugin.ts:282-294 | a terminal row never changes again and every later claim replays it |
| IdempotencyProtocol.RecordedOutcomeReplays | src/plugins/idempotency-store.plugin.ts:369-430 | after a successful completeClaim or failClaim every later claim is answered with that result or code |
| IdempotencyProtocol.OutcomeRecordedOnce | src/plugins/idempotency-store.plugin.ts:369-430 | at most one completeClaim or failClaim of a key ever returns true, and the row is terminal exactly when one did |
| IdempotencyProtocol.FencedForever | src/plugins/idempotency-store.plugin.ts:346-480 | once a token is superseded, every call with it returns false and leaves the row as it was, forever |
| IdempotencyProtocol.HolderIsFencedBy | src/plugins/idempotency-store.plugin.ts:316-458 | a holder loses the row exactly by a re-acquisition, its own outcome or its own release |
| IdempotencyProtocol.CeilingOvershoot | src/plugins/idempotency-store.plugin.ts:308-330 | attempts never pass maxAttempts - 1 + the number of calls pending at once |
| IdempotencyProtocol.CeilingReached | src/plugins/idempotency-store.plugin.ts:308-330 | for every ceiling of at least two and every number of calls pending at once, a run reaches that bound |
| IdempotencyProtocol.CeilingKeptExactly | src/plugins/idempotency-store.plugin.ts:308-330 | all runs with at most p calls pending at once keep the ceiling if and only if p is at most one or the ceiling is one |
| IdempotencyProtocol.StalledCallersPassTheCeiling | src/plugins/idempotency-store.plugin.ts:308-330 | a run in which attempts reach three under a ceiling of two |
| Idempotency.IdempotencyStore.ClaimKey | src/plugins/idempotency-store.plugin.ts:245-312 | refuses an empty key; otherwise performs the look-up step of the protocol on this key only, or leaves a re-acquisition to be attempted |
| Idempotency.IdempotencyStore.Reacquire | src/plugins/idempotency-store.plugin.ts:313-343 | the re-acquisition compare-and-set is the protocol's second step |
| Idempotency.IdempotencyStore.SaveClaimProgress | src/plugins/idempotency-store.plugin.ts:346-367 | the guarded progress step, success told by the return value |
| Idempotency.IdempotencyStore.CompleteClaim | src/plugins/idempotency-store.plugin.ts:369-395 | the guarded success step |
| Idempotency.IdempotencyStore.FailClaim | src/plugins/idempotency-store.plugin.ts:397-430 | refuses an empty code; otherwise the guarded failure step |
| Idempotency.IdempotencyStore.ReleaseClaim | src/plugins/idempotency-store.plugin.ts:432-458 | removes the row of the in-flight holder and no other |
| Idempotency.IdempotencyStore.ExpireClaim | src/plugins/idempotency-store.plugin.ts:460-480 | the guarded expiry step |
| LeaseProtocol.StepKeepsInv | src/plugins/lease.plugin.ts:147-262 | a step keeps "processing iff an expiry is stored" if and only if it does not finalise a row as processing |
| LeaseProtocol.RunKeepsInv | src/plugins/lease.plugin.ts:147-262 | a run keeps the invariant if and only if no release in it succeeds with the processing status |
| LeaseProtocol.StuckForever | src/plugins/lease.plugin.ts:224-262 | a row finalised as processing is never touched again |
| LeaseProtocol.HandOverAfterExpiry | src/plugins/lease.plugin.ts:166-190 | a row passes to another worker only by a lease call whose clock is past the stored expiry |
| LeaseProtocol.LostLeaseStaysLost | src/plugins/lease.plugin.ts:195-262 | a worker that does not hold a row can neither extend nor finalise it until it wins it again, whatever the others do |
| LeaseProtocol.FinalisedOnce | src/plugins/lease.plugin.ts:224-262 | unless a release of it asks for pending, a row is finalised at most once, exactly when one release of it succeeded |
| LeaseProtocol.FinalisedForever | src/plugins/lease.plugin.ts:147-262 | a finalised row is never leased or changed again |
| LeaseProtocol.PendingFinalStatusRequeues | src/plugins/lease.plugin.ts:241-258 | a released row can be claimed again if and only if its final status is pending |
| LeaseProtocol.PickedSatisfiesFilter | src/plugins/lease.plugin.ts:168-175 | for every filter: every row any lease can pick satisfies the whole of it if and only if no claimable row meets the rest of it and fails its own `$or` |
| LeaseProtocol.OwnOrIsDropped | src/plugins/lease.plugin.ts:171-175 | each such row is leased, from the store holding just that row, whatever the rest of the filter is |
| Lease.LeaseQueue.Lease | src/plugins/lease.plugin.ts:147-193 | refuses a non-positive duration or empty worker; otherwise leases an oldest claimable row, or none when there is none |
| Lease.LeaseQueue.Extend | src/plugins/lease.plugin.ts:195-222 | extends exactly for the live holder |
| Lease.LeaseQueue.Release | src/plugins/lease.plugin.ts:224-262 | finalises exactly for the live holder |
| LockProtocol.HeldUntilSafe | src/lock/index.ts:109-171 | from the clock reading of a holder's latest tryAcquire until leaseMs - 2 eps later nobody else acquires, no sweep removes the lock, and every inspect reports the holder, whatever the others call |
| LockProtocol.AcquireExcludes | src/lock/index.ts:109-144 | a rival's success after an acquisition lands no earlier than that bound, whatever was stored before |
| LockProtocol.BoundIsTight | src/lock/index.ts:109-144 | one tick later a rival can succeed, however late the first call landed |
| LockProtocol.HoldEndsOnlyBy | src/lock/index.ts:109-157 | over every run a holder keeps the lock unless it releases it itself, or a rival's acquire or a sweep lands with a clock past the stored expiry: a foreign release never ends a hold |
| LockProtocol.AcquiredAtIsLastInsert | src/lock/index.ts:119-134 | over every run `acquiredAt` is the clock reading of the call that last inserted the document, through all extensions and steals since |
| MongoLock.LockAdapter.TryAcquire | src/lock/index.ts:109-144 | the upsert with its duplicate-key path is the protocol's acquire step, on this lock only |
| MongoLock.LockAdapter.Release | src/lock/index.ts:146-157 | the release step |
| MongoLock.LockAdapter.Inspect | src/lock/index.ts:159-171 | an expired document reads as absent |
| CasProtocol.ClaimWinsFromSource | src/Repository.ts:1981-2143 | a claim wins only from a source state and under its guards, whatever `where` says of the state field; a losing or failing one writes nothing |
| CasProtocol.ClaimLandsInTarget | src/Repository.ts:2025-2069 | a winning claim leaves the row in the target state if and only if the ends differ or the patch leaves the state alone |
| CasProtocol.NoopClaimLeavesTarget | src/Repository.ts:2025-2038 | a claim with equal ends and a patch naming the state field leaves the target |
| CasProtocol.UpsertReplays | src/Repository.ts:2070-2082 | an empty upsert claim inserts the row once and every replay returns it unchanged |
| CasProtocol.StepKeepsFaithful | src/Repository.ts:2232-2276 | one transition, or a write by others off the two fields, keeps the history the entries of the winning calls and these a walk of the machine to the current state |
| CasProtocol.RunKeepsFaithful | src/Repository.ts:2197-2314 | under any interleaving the history ends in the current state; each of its steps is a machine edge from the state before, or a re-claim of that state by a call whose list of sources declares it |
| CasProtocol.HistoryRecordsWins | src/Repository.ts:2246-2276 | the history grows by exactly the entries of the winning calls, in the order they won |
| VersionProtocol.WriteIsPayload | src/Repository.ts:1652-1664 | the versioned write is the payload and the next version, nothing else |
| VersionProtocol.VersionsSerialize | src/Repository.ts:1644-1716 | the expected versions of the successful calls are v0, v0 + 1, ... without gap or repeat, and the row is the fold of their payloads in that order |
| VersionProtocol.ClaimMovesVersion | src/Repository.ts:2397-2509 | a winning claimVersion started from the version it named and moved it by its step, also on a first write |
| VersionProtocol.SameVersionWinsOnce | src/Repository.ts:2397-2509 | with steps of at least one, two claims with one numeric version never both win, whatever further claims land between them |
| VersionProtocol.ZeroStepWinsAgain | src/Repository.ts:2397-2509 | the same call wins again at once exactly when its step is zero, its guards still hold and its update still applies |
| RepositoryCas.Repository.Claim | src/Repository.ts:1971-2144 | the branches over patch shapes, equal ends and upsert perform the one claim step; the assertion-only path reads |
| RepositoryCas.Repository.ApplyTransition | src/Repository.ts:2197-2314 | an illegal source is refused before any write; a miss always throws: 404 exactly when the re-read row is gone, the machine's error when the current state forbids the move, 409 otherwise |
| RepositoryCas.Repository.UpdateIfVersion | src/Repository.ts:1644-1716 | refuses mixed payloads and payloads owning the version; a miss is a conflict exactly when the second read finds the row in scope, null or 404 when it does not |
| RepositoryCas.Repository.ClaimVersion | src/Repository.ts:2397-2510 | normalisation, first-write refusals and the compare-and-set amount to the one version step |
| CascadeModel.IntegrityPreserved | src/plugins/cascade.plugin.ts:358-550 | a settled shrinking of a store without dangling keys has none |
| CascadeModel.RemovesExactlyReachable | src/plugins/cascade.plugin.ts:564-627 | exactly the rows reachable by cascade relations are removed when no reference is cascaded from one reachable row and detached by another (or no foreign key has two policies at all) |
| CascadeModel.SurvivorsKeepTheirFields | src/plugins/cascade.plugin.ts:195-228 | a surviving row loses a key exactly when a detach relation's parent is gone |
| Cascade.Database.CollectIds | src/utils/id-chunks.ts:44-60 | collects each matching id exactly once |
| Cascade.Database.CountReferencing | src/plugins/cascade.plugin.ts:93-115 | the chunked count is positive exactly when a referencing row exists |
| Cascade.Database.CheckRestrictions | src/plugins/cascade.plugin.ts:318-353 | refuses exactly when a restrict relation is still referenced |
| Cascade.Database.DetachBulk | src/plugins/cascade.plugin.ts:195-228 | for every batch size, clears exactly the references to the ids by that key and nothing else |
| Cascade.Database.CascadeBulk | src/plugins/cascade.plugin.ts:597-627 | for every batch size the children of the ids are gone, with their own cascades run |
| Cascade.Database.DeleteMany | src/plugins/cascade.plugin.ts:430-550 | terminates over cyclic graphs for every batch size; finishes when no reachable row is restrict-referenced, and then keeps integrity; a refused call changed nothing or left a dangling key; removes exactly the reachable rows when none is shielded by a detach; counts the matched ones; refuses untouched when a matched row is restricted |
| Cascade.Database.Delete | src/plugins/cascade.plugin.ts:318-425 | the same for one parent row, also when none matched; removes nothing out of reach once the row's own detaches are done, so a row that only the deleted row's detached references reach survives |
| Cascade.DetachedFirstIsUnreached | src/plugins/cascade.plugin.ts:358-425 | a row to which only references cascade that the deleted row itself detaches, or rows out of reach, is out of reach once they are detached |
| Cascade.DetachShieldsChild | src/plugins/cascade.plugin.ts:358-425 | a call of `Delete` after which a row reachable by cascades is still there, because the deleted row detached its key first |
| Cascade.TeamIsShielded | src/plugins/cascade.plugin.ts:358-425 | that store has integrity; only the condition on shielding fails |
| Cascade.RefusalMidCascade | src/plugins/cascade.plugin.ts:318-353 | a nested refusal leaves the parent gone and a reference dangling |
| Like.LikeToRegex | src/filter/compile.ts:275-304 | the loop emits the specified anchored string |
| Like.LikeToRegexPattern | src/filter/compile-expr.ts:151-177 | the other copy emits the same string |
| Like.EmittedParses | src/filter/compile.ts:275-304 | the emitted body parses to one item per LIKE specifier |
| Like.LikeIsPreserved | src/filter/compile.ts:275-304 | parsed and matched as a regular expression it accepts a one-line text if and only if the LIKE pattern does, for every pattern and case rule |
| Like.LineBreaksDiffer | src/filter/compile.ts:275-304 | with a line break they part, in both directions |
| CompileQuery.FailsExactlyOnRaw | src/filter/compile.ts:153-254 | compilation fails if and only if the tree contains a raw node |
| CompileQuery.CompilePreservesMeaning | src/filter/compile.ts:153-254 | the compiled query matches a document if and only if the filter holds of it |
| CompileQuery.NullBoundDiffers | src/filter/compile.ts:153-254 | a bound against null matches exactly the null fields, which the filter excludes |
| CompileExpr.LeavesAgreeExactly | src/filter/compile-expr.ts:48-144 | a leaf's expression evaluates, and to what its query says, if and only if the document is comparable: with plain operands a condition on its field alone, with an operand beginning with `$` on what that operand reads in the document |
| CompileExpr.CompilersAgree | src/filter/compile-expr.ts:48-144 | the two compilers agree on every tree with comparable leaves |
| CompileExpr.AgreesExactlyWithoutDollars | src/filter/compile-expr.ts:55-120 | a leaf's two forms agree for every engine and every document whose field is comparable if and only if none of its operands begins with `$` |
| CompileExpr.DollarOperandDiffers | src/filter/compile-expr.ts:55-120 | an equality with `$other` compares two fields and is true where the query does not match; a pattern `$` does not evaluate |
| CompileExpr.MissingFieldDiffers | src/filter/compile-expr.ts:48-144 | "is null" is true in the query and false in the expression on a missing field |
| ChangeStreamMatch.PrefixMatchPaths | src/Repository.ts:260-274 | the loop re-roots every path and recurses into the logical operators |
| ChangeStreamMatch.PrefixingPreservesMatching | src/Repository.ts:260-274 | the re-rooted query matches an event if and only if the query matches its post-image |
| ChangeStreamMatch.DeleteMatchesAsEmpty | src/Repository.ts:260-274 | an event without a post-image is matched as an empty document |
| SearchMerge.BuildSearchQuery | src/Repository.ts:3715-3780 | regex search asks for the old filter and the text in some search field, whatever `$and` and `$or` was there; the error cases of each mode |
| SearchMerge.EscapedIsLiteral | src/Repository.ts:3743-3743 | the escaped text parses to itself |
| SearchMerge.SearchFindsSubstrings | src/Repository.ts:3743-3746 | the escaped search finds exactly the texts containing the search text, case folded |
| PolicyMerge.InjectPolicyScope | src/Repository.ts:3196-3218 | the merged filter matches if and only if every part does; without a scope the request is untouched; fails only when a part does not compile |
| CastSchema.CastThenStrict | src/filter/cast-schema.ts:116-164 | strict matching of the cast query is matching with cast operands, provided no node taken for Filter IR and no `$not` holds an operand the schema changes |
| CastSchema.OperandTells | src/filter/cast-schema.ts:78-99 | an operand left uncast is told apart from its cast by some value if and only if the two differ in meaning |
| CastSchema.MissedNotTells | src/filter/cast-schema.ts:78-99 | under a `$not` some document parts the cast query from what was meant if and only if the operand and its cast differ in meaning |
| CastSchema.MissedBesideOpTells | src/filter/cast-schema.ts:116-132 | the same beside a string field named op |
| CastSchema.NotIsNotCast | src/filter/cast-schema.ts:78-99 | a bound under `$not` on a number column stays a string and matches a row it should not |
| CastSchema.CastKeepsAcceptance | src/filter/cast-schema.ts:116-164 | the server takes the cast query if and only if it takes the query; a top-level `$not` is refused either way |
| CastSchema.OpFieldIsNotCast | src/filter/cast-schema.ts:116-132 | a filter on a string field named op is left uncast and misses |
| CastSchema.CastIdempotent | src/filter/cast-schema.ts:116-164 | casting twice is casting once when value casting is idempotent |
| CastSchema.CastOperatorObject | src/filter/cast-schema.ts:78-99 | casts the operands of the scalar and list operators and passes a `$not` through |
| CastSchema.CastFilterToSchema | src/filter/cast-schema.ts:116-164 | the loops with their change flags compute the cast query |
| KeysetOrder.AcceptedSortIsValid | src/pagination/utils/sort.ts:51-108 | an accepted sort keeps the caller's fields and directions, in one direction, without duplicates, with the _id tiebreak |
| KeysetOrder.LexIsStrict | src/pagination/utils/filter.ts:74-107 | the server's tuple order, nulls below every value, is a strict order |
| KeysetOrder.AsksButAcrossNull | src/pagination/utils/filter.ts:74-107 | `$gt` and `$lt` by tuple ask for the rows after in that order, except where a null meets another value |
| KeysetFilter.KeysetFilterMeaning | src/pagination/utils/filter.ts:35-108 | made from any row, the filter asks for exactly the rows after it, except across a null, among those matching what it keeps of the caller's filter |
| KeysetFilter.OffExactly | src/pagination/utils/filter.ts:35-108 | a later page is wrong about a row exactly when the row comes after and either matches across a null or matches what is kept of the filter and not the filter |
| KeysetFilter.CallerOrIsDropped | src/pagination/utils/filter.ts:68-107 | behind a row without nulls, what is kept is the filter without its `$or`: of the rows not across a null, those are wrong that fail the `$or` and nothing else |
| KeysetFilter.OrDroppedOnSecondPage | src/pagination/utils/filter.ts:68-107 | a row outside the caller's `$or` that the second page returns |
| Pagination.CursorFieldsSurvive | src/pagination/PaginationEngine.ts:78-127 | the cursor's fields survive the projection if and only if the caller did not exclude one; nothing asked for is lost and only cursor fields are added |
| Pagination.CursorOfProjection | src/pagination/utils/cursor.ts:22-51 | the cursor of a projected row is the cursor of the row |
| Pagination.PaginationEngine.Stream | src/pagination/PaginationEngine.ts:359-493 | reading one row more than the limit gives the first page of the matches, hasMore exactly when there are more, and a cursor of its last row |
| Pagination.FindPast | src/pagination/PaginationEngine.ts:428-438 | resuming behind a row finds exactly the rest of the list if and only if no row of the rest is off |
| Pagination.PagesShow | src/pagination/PaginationEngine.ts:359-493 | for every filter, sort and nulls: following next shows exactly the matches if and only if each fetch behind a full page shows the right rows and says there is more when there is |
| Pagination.PagesAreRightExactly | src/pagination/PaginationEngine.ts:359-493 | following next shows exactly the matching documents, in order, if and only if no document is off behind a full page |
| Pagination.OrDecides | src/pagination/PaginationEngine.ts:359-493 | without nulls in the sort fields that is so if and only if behind the first page every document that matches the filter without its `$or` matches the filter |
| Pagination.NothingOffPlainly | src/pagination/utils/sort.ts:35-42 | without an `$or` no document is ever off, if the sort fields hold no nulls or the sort is ascending by one field |
| Pagination.PagesCoverTheMatches | src/pagination/PaginationEngine.ts:359-493 | then following next visits every matching document exactly once, in sort order, in ceil(n / limit) pages, and only the last page says there is no more |
| Pagination.DescendingNullIsLost | src/pagination/utils/sort.ts:35-42 | a matching document without the sort field that a descending traversal never shows |
| SearchPaging.SearchedPagesExactly | src/Repository.ts:1372-1431 | a regex search paged by next shows exactly the hits if the filter had an `$or` of its own; if not, if and only if behind the first page every document that matches the filter is a hit |
| SearchPaging.SearchIsDropped | src/Repository.ts:1372-1431 | a search whose second page returns a document that it does not find |
| Pagination.TraversalExists | src/pagination/PaginationEngine.ts:359-493 | the traversal ends, for every filter, sort and nulls |
| Pagination.PageCountIsCeiling | src/pagination/PaginationEngine.ts:359-493 | n matches take ceil(n / limit) pages |
| Pagination.ListedIsDistinct | src/pagination/utils/sort.ts:102-107 | the tiebreak makes the listed documents distinct, so once is once |
| Purge.SelectedIsChunk | src/utils/id-chunks.ts:87-118 | a chunk is the first rows, in _id order, past the cursor that match the caller's filter less its top-level _id entry |
| Purge.ChunkIsInitial | src/utils/id-chunks.ts:101-117 | a chunk is the least ids left, ascending, and empty only when none is left |
| Purge.ChunkAdvances | src/actions/purge.ts:98-178 | what is left after a chunk is what was left before it without the chunk, whether or not written rows still match |
| Purge.NarrowedWrite | src/utils/id-chunks.ts:126-131 | at whatever moment it lands, the narrowed write reaches, among the rows it names, exactly those in the caller's cohort |
| Purge.FunctionalWrite | src/actions/purge.ts:194-233 | the per-row updates write each selected row once with the patch of the document read |
| Purge.IdTestIsDropped | src/utils/id-chunks.ts:87-92 | past the first chunk a row is selected wrongly exactly when only the filter's own _id entry would have kept it out |
| Purge.NextChunkLeavesCohort | src/utils/id-chunks.ts:87-92 | purging one id by filter, the next chunk is another row |
| Purge.FunctionalWriteLeavesCohort | src/actions/purge.ts:207-230 | a row that left the cohort after the select is skipped by the static write and written by the functional one |
| Purge.FunctionalWriteStays | src/actions/purge.ts:207-230 | whatever happened since the select, the per-row updates leave every row outside the cohort as it is if and only if they change nothing in the selected rows they reach there |
| Purge.PurgePort.PurgeChunk | src/actions/purge.ts:114-176 | one call writes what lands of its chunk, each row once, and moves the cursor to the last; a write that throws may have reached any part of the chunk and leaves the cursor, so the retry selects from the same place |
| Purge.PurgePort.PurgeAnonymizeFunctional | src/actions/purge.ts:194-233 | the same for function-form replacers and their unordered bulk write |
| Purge.PurgePort.Run | src/actions/purge.ts:98-178 | called until a chunk is empty, through any throws and for every filter, it stops, with the rows, the writes and the count of the specified run: the first chunk by the whole filter, the later ones without its top-level _id entry |
| Purge.PurgeIsExact | src/actions/purge.ts:98-178 | a purge writes exactly the rows matching its filter if and only if no row past the first chunk to succeed matches the filter but for its _id entry; with no throw having reached a row that is the first chunk of the start |
| Purge.PortWrites | src/actions/purge.ts:98-178 | at least once: through any throws every row that matched is written, and besides them exactly the strays past that chunk; the rows are what those writes make of them |
| Purge.PortTimes | src/actions/purge.ts:170-175 | a row the run reaches is written more than once if and only if a write that threw had reached it and it still matched |
| Purge.PortCounts | src/actions/purge.ts:170-175 | if no throw had reached a row the counts sum to the number of rows the run reaches |
| Purge.RunWritesAll | src/actions/purge.ts:98-178 | at least once, for a run with one cohort: what the later chunks do |
| Purge.TwiceExactlyWhenRelanded | src/actions/purge.ts:170-175 | the condition for a second write there |
| Purge.OnceAndCounted | src/actions/purge.ts:170-175 | if no throw had reached a row, none is written twice there and the counts sum to the number of matching rows |
| Purge.HardWritesOnce | src/actions/purge.ts:145-148 | a hard purge never writes a row twice, wherever its throws landed |
| Purge.RepeatsDoNoHarm | src/actions/purge.ts:190-192 | idempotent by outcome: with a repeatable strategy the rows end as if each had been written once, at its last time |
| Purge.HarmlessExactly | src/actions/purge.ts:190-192 | repeatable strategies are the only ones of which that is true |
| Purge.RepeatableExactly | src/actions/purge.ts:190-192 | a strategy is repeatable if and only if its replacers answer the same on the row they wrote; hard, soft and static ones always are |
| Purge.PurgeOutcome | src/actions/purge.ts:98-178 | these together for a run from its start |
| Purge.ReplacerAppliedTwice | src/actions/purge.ts:207-230 | two calls after which a replacer was applied to its own result |
| WatchProtocol.StepKeepsInv | src/Repository.ts:1174-1253 | every callback, pull and resumption keeps the delivery invariant |
| WatchProtocol.NothingLost | src/Repository.ts:1174-1224 | the changes taken and queued are exactly those that arrived, in order |
| WatchProtocol.DeliversInOrder | src/Repository.ts:1140-1253 | what was yielded is the mapped form of a prefix of what arrived; parked only with nothing to deliver or report; without abort it ends or throws only after all was delivered; it rejects only when aborted before the stream was opened |
| WatchProtocol.TurnMakesProgress | src/Repository.ts:1221-1234 | with changes pending each turn shortens the queue, delivering one or finding only unmapped ones |
| WatchProtocol.PullsDeliverAll | src/Repository.ts:1221-1246 | a consumer that keeps pulling receives everything queued, also after an error or a close |
| Watch.ChangeFeed.ChangeArrived | src/Repository.ts:1184-1187 | the change callback is the protocol's step |
| Watch.ChangeFeed.ErrorArrived | src/Repository.ts:1188-1191 | the error callback is the protocol's step |
| Watch.ChangeFeed.Closed | src/Repository.ts:1192-1195 | the close callback is the protocol's step |
| Watch.ChangeFeed.Aborted | src/Repository.ts:1208-1213 | the abort callback is the protocol's step |
| Watch.ChangeFeed.RunOn | src/Repository.ts:1221-1246 | the loop runs to its next yield, park or end as specified |
| Watch.ChangeFeed.Next | src/Repository.ts:1140-1246 | the first pull opens the stream, or rejects when already aborted; later ones run the loop on |
| Watch.ChangeFeed.Continue | src/Repository.ts:1178-1246 | a notified iterator runs on from where it parked |
| Watch.ChangeFeed.Leave | src/Repository.ts:1247-1253 | a consumer that breaks out ends the iterator, opened or not |
| FrozenRows.LiteralClaimKeeps | src/plugins/immutable-states.plugin.ts:253-276 | a claim on the guarded field from literal states outside the frozen set keeps every frozen row whenever its write lands |
| FrozenRows.GuardedStepKeeps | src/plugins/immutable-states.plugin.ts:156-288 | an operation the guard lets through keeps every frozen row |
| FrozenRows.RunKeeps | src/plugins/immutable-states.plugin.ts:156-288 | no run of guarded operations, with claims on the guarded field landing at any time after their guard, changes or removes a frozen row |
| FrozenRows.SingleMatchInScope | src/plugins/immutable-states.plugin.ts:209-225 | a filter matching at most one row is safe under every sort |
| FrozenRows.SortedFirstMatch | src/plugins/immutable-states.plugin.ts:209-225 | a first match writes a frozen row exactly when the sort puts one first and the update changes it |
| FrozenRows.SortedMatchThaws | src/plugins/immutable-states.plugin.ts:209-225 | a draft read first, a posted row written by the sort |
| FrozenRows.OperatorClaim | src/plugins/immutable-states.plugin.ts:260-265 | a claim let through changes a frozen row exactly when an operator object, or a pattern in the list of its source, accepts that state and its write takes effect |
| FrozenRows.UntouchedTakesByTest | src/plugins/immutable-states.plugin.ts:260-265 | a source the guard lets through takes a frozen state exactly by such a test |
| FrozenRows.OperatorClaimThaws | src/plugins/immutable-states.plugin.ts:260-265 | such a claim with an operator object, and one with a regular expression in a list |
| FrozenRows.LateWriteThaws | src/plugins/immutable-states.plugin.ts:197-207 | a row frozen between an update's guard and its write is written |
| FrozenRows.PinnedBatchPasses | src/plugins/immutable-states.plugin.ts:227-243 | a batch that pins the guarded field outside the frozen states is never refused |
| ImmutableStates.GuardedRepository.GuardMany | src/plugins/immutable-states.plugin.ts:227-243 | refuses exactly when a frozen row matches, naming one |
| ImmutableStates.GuardedRepository.GuardFirst | src/plugins/immutable-states.plugin.ts:209-225 | refuses exactly when the first match in natural order is frozen |
| ImmutableStates.GuardedRepository.Execute | src/plugins/immutable-states.plugin.ts:156-288 | a refusal writes nothing; without the internal flag frozen rows are kept |
| ModelRegistry.Connection.DefineModel | src/model-registry.ts:66-97 | an existing model is returned or refused untouched, the factory running only when the name is free |
| Blueprint.Describe | src/model-blueprint.ts:95-112 | describes exactly the specs without a duplicate name, in order |
| Blueprint.RollBack | src/model-blueprint.ts:168-199 | unless one of its own steps fails, names, schemas and collections are as before the bind |
| Blueprint.BindOne | src/model-blueprint.ts:124-165 | binds a spec exactly when its policy, factory and registration allow, and stays undoable when not |
| Blueprint.Bind | src/model-blueprint.ts:114-201 | all or nothing: success adds the missing names, keeps reused models and puts a new object for each replaced one; it fails only where a spec cannot be bound or the assembly refuses; a failure whose rollback succeeds restores the registry |

## Left out

- CasProtocol.RunKeepsFaithful: other writers may touch the row but not name the state or history field, and a call with equal literal ends must not name the state field in its payload; only the default history field is covered.
- CasProtocol.ClaimWinsFromSource: ids are the collection's keys and never fields of the row, so an ill-shaped id is simply absent and updates of the id are not modelled.
- CascadeModel.RemovesExactlyReachable: the condition that no reference is both cascaded and detached from reachable rows is sufficient, not necessary: when both happen, it depends on the order of the relations and hooks whether the cascade or the detach meets the row first.
- Cascade.Database.DeleteMany: `parallel: true`, soft-delete and model-routed cascades, sessions and tenant scope, and the refusal of an empty filter are not modelled.
- LockProtocol.HeldUntilSafe: counts from the instant the holder read its clock, since the promise is false counted from the later instant the call landed.
- CompileExpr.LeavesAgreeExactly: a regular expression's flags are letters, and field names do not themselves begin with `$`.
- CompileQuery.CompilePreservesMeaning: documents have scalar fields and one-line texts; shorthand expansion and date coercion are not modelled, nor are array values and BSON's order across types.
- ChangeStreamMatch.PrefixingPreservesMatching: for queries without operators such as `$text` that name no path.
- CastSchema.CastThenStrict: the converse is proved for one operand at a time, under a `$not` and beside an `op` field; of larger queries the other conditions decide whether a document can tell.
- Pagination.PagesAreRightExactly: not for several sort fields, nulls in them and a top-level `$or` all at once, where a row found wrongly can be lost again on the way; `PagesShow` covers that case too.
- Pagination.PagesCoverTheMatches: sort fields hold values of one type besides null, and ids are not null, and the selection does not exclude a field of the cursor (`CursorFieldsSurvive` says when); the token's base64 and JSON coding is taken as lossless, and a bare id as cursor, collation and populate are not modelled.
- Purge.PurgePort.Run: no concurrent writers during the run; which rows a throwing write reached is arbitrary, but it reaches each at most once; the orchestrating loop, in the repo-core package, is not part of this model beyond "call until zero, retry on failure", and strategies never write the `_id`.
- WatchProtocol.DeliversInOrder: consumers ask for one event at a time, as `for await` does; the policy hooks that run on the first pull are not modelled, and opening the stream is one step with them.
- FrozenRows.RunKeeps: guard and write are adjacent except for claims on the guarded field; ids are the default `_id`; no `allowClaim` exemption or internal flag is in play; a caller's sort does not change the first match.
- Blueprint.Bind: Mongoose's schema compilation is one number per factory, and a schema factory does not itself touch the registry.
- Idempotency rows are not removed by a TTL sweep, and extra seed columns beyond progress, result, failure code and error are ignored.
- The lease queue's custom sort, retry policies and abort signals around writes.
- An empty `$and`, `$or` or `$nor` array, or an empty update operator, is read as an absent one.
- Vector search, URL policy, Elastic search, audit, timestamps, custom ids, offset pagination and the other plugins.
