# infractl: a verified model

infractl is a Go framework for infrastructure control planes. This project models the parts of
it that carry real algorithms and protocols, in Dafny, and proves what they promise.

| file | models |
|---|---|
| `Filter`, `FilterRoundTrip`, `FilterSql` (with `GoStrings`) | the compiler from filter text to a SQL condition with bound arguments |
| `Resources`, `Nesting`, `Store`, `Hierarchy` | resource rows, finalizers, the parent check, the store's operations and what runs of them keep |
| `Versions`, `Retry` | single SQL statements of many clients interleaved freely: versions, generations, lost updates, and what a conflict leaves behind |
| `Paging`, `Listing` | listing in pages with continue tokens, and with a filter text |
| `Queue`, `Lease` | the PostgreSQL queue: attempts, retry delays, and the stale timeout as a lease |
| `Registry`, `Features` | provider registration, dependency resolution, start and stop order, and what becomes of dependencies on features |
| `Dispatch`, `Tracking` | workflow dispatch by phase, and polling of tracked runs |
| `Bus`, `Loop` | event fan-out under a read/write lock, and the kick-to-wake loop |
| `Common` | options, results, wrapping int64 arithmetic, list removal |

How it is built:

- Code that updates state in place is a class or a method with loops (`GenericStore`, `Resource`,
  `PgQueue`, `Registry`, `Resolver`, `DispatchTable`, `Dispatcher`, `TrackedRuns`, `PgBus`,
  `ParseFilter`, `ValidateParent`). Each is proved against a specification function or a
  declarative predicate, and the promises are lemmas about those.
- A GORM call is one atomic statement over a table, a map from key to row. Soft-deleted rows
  stay in the map: they are invisible to every statement except the unique key.
- A concurrent protocol is a state machine over its steps. A theorem about "every run" quantifies
  over all sequences of steps. `TrackedRuns` and `PgBus` are the source's loops again as methods,
  with arbitrary interference wherever the lock is free, proved to be runs of those machines.
- Resource versions, generations and retry delays wrap as Go's int64 does.
- Clocks, generated identifiers, executor answers, provider failures, row locks held by other
  transactions and context cancellation are parameters or steps.

Where the code does not keep what its documentation says, the code is modelled as it is, and the
exact condition is proved:

- `PartialUpdate` sets `parent` without the check that Create and Update make
  (`UncheckedPatchMakesCycle`); any write of a row keeps the hierarchy exactly when that check
  would have accepted it (`WriteKeepsForestIff`). Check and write are separate statements, so two
  crossing re-parentings can both pass (`CrossingChecksMakeCycle`).
- Update bumps the version in the caller's object even when it then returns a conflict. Calling
  it again with the same object, without a new Get, overwrites a write the caller never saw
  exactly when there was one write since the caller's Get (`RetryWithoutGetOverwritesIff`,
  `RetryReplacesUnseenPatch`).
- Complete and Fail do not look at the status: Fail reopens a completed or cancelled row exactly
  when attempts are left (`FailReopensIff`, `CompletedRowReopens`), also within the lease of a
  worker whose row was cancelled (`CancelledRowReopens`).
- The retry delay doubles in int64 and wraps beyond 30 attempts; `BackoffIntendedIff` gives every
  attempt count for which it is still right, and `BackoffOverflows` the first for which it is
  not. The queue's own maximum of 3 stays in range.
- The field check lets through names that are no SQL column: reserved words such as NOT or
  SELECT, names with an empty or numeric part such as `..`, and more than four parts. Their
  clauses are not SQL conditions on columns (`ClauseReadableIff`, `AcceptedButUnreadable`).
- The provider guide calls dependencies features; the registry resolves them as provider names,
  so a feature that is no provider's name is never found (`FeatureNameFails`,
  `AvailableButUnresolved`), and one that is another provider's name can come too late
  (`ShadowedFeatureComesLate`). The guide's promise holds when features are named after their
  providers (`EponymousKeeps`), and its order holds of every order with dependencies first exactly
  when each feature's provider is reached along the names (`FeaturesFirstIff`).
- Resource types containing a dot can share a dispatch key (`KeyCollisionIff`).

## Model

| member | source | states |
|---|---|---|
| Filter.IsValidFieldName | resource/filter.go:203-214 | true exactly for 1 to 64 letters, digits, underscores and dots |
| Filter.ExtractFieldOpValue | resource/filter.go:160-186 | an error exactly when no operator occurs; otherwise the text is split at the first operator to start, the longest one there, both sides trimmed; the seven independent searches agree with one left-to-right scan |
| Filter.CompileTerm | resource/filter.go:136-155 | clause and value of the term that scan yields, with the three error cases in order |
| Filter.CompileGroup | resource/filter.go:65-81 | clauses and values of one OR-group in order, blank pieces skipped, the first bad piece being the error |
| Filter.ParseFilter | resource/filter.go:50-107 | clause and arguments are the rendering and the values of the parsed OR-groups, or the first error |
| Filter.CompileField | resource/filter.go:190-199 | the first matching prefix turns the field into a JSON key access; any other field is itself |
| Filter.TermCases | resource/filter.go:136-155 | from the text of a term: missing operator, empty field and invalid field, each exactly when it should be, and the field read otherwise |
| Filter.AcceptedIff | resource/filter.go:50-107 | a filter is accepted exactly when every piece between its separators is blank or has a valid field name before its first operator |
| FilterRoundTrip.RoundTrip | resource/filter.go:50-186 | every printed OR-of-ANDs parses to the same groups, operators (`==` as `=`) and values in order, whatever mix of the documented AND and OR separators joins it, with or without spaces around each operator, values holding operator characters included |
| FilterRoundTrip.MixReplace | resource/filter.go:118-129 | replacing a keyword in text with mixed separators changes exactly the separators that are that keyword |
| FilterRoundTrip.CompactReadsBackIff | resource/filter.go:160-186 | `field op value` written without spaces reads back exactly when the value does not extend the operator |
| FilterSql.OneMarkPerArgument | resource/filter.go:50-107 | every accepted filter's clause has exactly one `?` per argument |
| FilterSql.ClauseReadableIff | resource/filter.go:94-107 | for every set of reserved words with AND, OR and NOT in it, the clause is a SQL condition on columns exactly when every field is a column name: one to four identifiers joined by dots, none of them reserved |
| FilterSql.AcceptedButUnreadable | resource/filter.go:136-155 | `NOT=1`, `..=1` and a reserved word as field are accepted, and their clauses cannot be read |
| FilterSql.ClauseMeaning | resource/filter.go:50-107 | with such fields, read with SQL precedence, the i-th `?` bound to the i-th argument, the clause is true of a row (three-valued logic) exactly when some OR-group has all its terms true; an empty clause has no arguments |
| Resources.Resource.HasFinalizer | resource/model.go:107-114 | membership in the list |
| Resources.Resource.AddFinalizer | resource/model.go:117-121 | the name is listed afterwards: appended at the end unless it was there; other columns unchanged |
| Resources.Resource.RemoveFinalizer | resource/model.go:124-131 | the list loses the first occurrence only; other columns unchanged |
| Resources.RemovedIffOnce | resource/model.go:124-131 | one removal rids a list of a name exactly when it was listed at most once |
| Resources.FinalizersStayDistinct | resource/model.go:107-131 | lists built by adding and removing never repeat a name, so one removal is enough |
| Resources.RemoveKeepsOthers | resource/model.go:124-131 | removing a name neither removes nor adds any other |
| Nesting.ValidateParent | resource/nesting.go:33-74 | ends on every table, and answers: circular when the parent is the resource itself or its chain reaches the resource or repeats, not found when the parent is no live row, accepted otherwise |
| Nesting.EndsXorLoops | resource/nesting.go:49-71 | every ancestor chain of a finite table ends or repeats a name, and never both |
| Nesting.HasChildren | resource/nesting.go:78-87 | the count of live rows naming the resource as parent is compared with zero: false exactly when every row of the organisation that names it is soft-deleted |
| Store.GenericStore.CheckParent | resource/store.go:346-356 | no or an empty parent passes; not found exactly when another name is no live row of the organisation; circular exactly when the parent is the resource itself or its chain reaches it or repeats |
| Store.GenericStore.Create | resource/store.go:95-108 | a refused parent changes nothing; a taken key, soft-deleted or not, is a duplicate; otherwise the row is inserted with version and generation 1 in place of zero |
| Store.GenericStore.Get | resource/store.go:112-124 | finds exactly the live row of the key |
| Store.GenericStore.List | resource/store.go:127-189 | a bad filter and a clause that is not SQL are errors; otherwise the page of the current table's live rows for which some OR-group of the filter text holds |
| Store.GenericStore.Update | resource/store.go:195-249 | with an accepted parent: not found, done and conflict exactly when; the caller's version goes up by one on done and on conflict, its generation exactly when both specs are known and differ; the row is replaced exactly on done |
| Store.GenericStore.PartialUpdate | resource/store.go:264-286 | done exactly on a live row at that version, conflict exactly on a live row at another, not found exactly without a live row; named columns take their values, the version goes up by one, every other column and row is kept |
| Store.GenericStore.Delete | resource/store.go:303-344 | the exact condition of not found, children, pending finalizers and done; finalizers leave the row with its deletion timestamp set to now, done soft-deletes it, the others change nothing |
| Store.GenericStore.UpdateStatus | resource/status_updater.go:31-52 | done exactly on a live row, whose status is set; every other column and every other row is kept, and nothing changes otherwise |
| Hierarchy.WriteKeepsForestIff | resource/store.go:195-286 | writing a live row, checked or not, keeps the hierarchy exactly when the parent check accepts it |
| Hierarchy.SoftDeleteKeepsForestIff | resource/store.go:314-343 | soft-deleting a row keeps the hierarchy exactly when no live row names it as parent |
| Hierarchy.RunKeepsForest | resource/store.go:95-344 | in every run of disciplined operations each live row's parent is a live row of its organisation and every ancestor chain ends |
| Hierarchy.HierarchyHolds | resource/nesting.go:29-74 | from an empty table there is never a cycle and every chain ends at a live root |
| Hierarchy.UncheckedPatchMakesCycle | resource/store.go:264-271 | one PartialUpdate can make a row its own parent |
| Hierarchy.CrossingChecksMakeCycle | resource/store.go:195-247 | two re-parentings that both pass their checks on the same table leave a cycle once both have written |
| Hierarchy.OtherRowsUntouched | resource/store.go:95-344 | a run that never names a key never creates, changes or removes its row |
| Hierarchy.DeletedOnlyWhenFree | resource/store.go:314-343 | a row becomes soft-deleted only by a Delete that finds no finalizers and no live children |
| Hierarchy.DeletedStaysDeleted | resource/store.go:195-344 | whatever operations follow, a soft-deleted row never changes |
| Hierarchy.DeletedKeyIsGone | resource/store.go:95-124 | and its key is never created, updated or found again |
| Versions.VersionCountsWrites | resource/store.go:235-286 | for arbitrary clients and interleavings a row's version is its creation version plus its successful Updates and PartialUpdates, and the n-th of those replaced version n |
| Versions.OneWritePerVersion | resource/store.go:237-247 | at most one write succeeds from each version, in fewer than 2^64 writes |
| Versions.NoLostUpdate | resource/store.go:212-286 | a client that writes back the version it got replaces the row it got in every column but status and deletion marks, and its Update compared specs with that very row |
| Versions.GenerationCountsSpecChanges | resource/store.go:216-233 | when all Updates write back what Get returned and patches leave generations alone, the generation is the initial one plus the successful spec-changing Updates |
| Versions.UndisturbedUpdate | resource/store.go:195-249 | the two statements of an Update with nothing between them are the whole operation |
| Retry.RetryWithoutGetOverwritesIff | resource/store.go:212-247 | in every run, repeating a conflicting Update with the same object succeeds exactly when one write has happened since the caller's snapshot; it replaces that unseen write by the caller's columns, and the generation has gone up by two when both calls found another spec |
| Retry.RetryReplacesUnseenPatch | resource/store.go:212-247 | a run in which that happens: another client's patch, which nobody ever got, is replaced and one spec change is counted twice |
| Paging.InOrderSorts | resource/store.go:146-150 | the ordered list holds each matching name once, in increasing order |
| Paging.List | resource/store.go:139-188 | the slice of the ordered matching rows, its successor offset and the total, for any filter on key and columns |
| Paging.PagingComplete | resource/store.go:127-189 | for any sequence of limits following the tokens ends, and the pages concatenate to the organisation's matching live rows, each once, in name order; every page reports their number and all but the last hold exactly the limit (50 when none is asked for) |
| Listing.List | resource/store.go:127-189 | from filter text to page: the compiled clause, read as SQL, selects exactly the live rows for which some OR-group has all its terms true |
| Listing.FilteredPagingComplete | resource/store.go:127-189 | for an accepted filter text on columns, following the tokens over the rows its compiled clause selects collects exactly the live rows for which some OR-group of the text holds, each once, in name order |
| Queue.PgQueue.Enqueue | work/pg_queue.go:58-75 | a new pending row with no attempts and a maximum of 3, or a duplicate-key failure that changes nothing |
| Queue.PgQueue.Claim | work/pg_queue.go:79-123 | takes a pending, unlocked row of a wanted kind whose retry time has come, the oldest of those, ties by key, and marks it running with one more attempt; none exactly when there is none |
| Queue.PgQueue.Complete | work/pg_queue.go:126-138 | completes the row whatever its status; fails exactly on an unknown id |
| Queue.PgQueue.Fail | work/pg_queue.go:142-165 | with attempts left the row is pending again after the delay, otherwise failed, with the error either way |
| Queue.PgQueue.RecoverStale | work/pg_queue.go:178-184 | exactly the running rows claimed before the cutoff become pending and lose their claim time, other columns and rows are kept, and no stale row is left |
| Queue.PgQueue.Cancel | platform/task/handler.go:80-93 | fails exactly the pending or running row of the organisation |
| Queue.BackoffExact | work/pg_queue.go:149-152 | up to 30 attempts nothing overflows and the delay is min(5 * 2^attempts, 300) seconds |
| Queue.BackoffMonotone | work/pg_queue.go:149-152 | up to 30 attempts the delay never decreases and lies between 5 and 300 seconds |
| Queue.BackoffIntendedIff | work/pg_queue.go:149-152 | for every attempt count, whether the wrapping delay is the intended one |
| Queue.BackoffOverflows | work/pg_queue.go:149-152 | the delay after 31 attempts is negative |
| Queue.RetryInRange | work/pg_queue.go:148-153 | with a maximum of at most 31 every scheduled retry is in the exact range |
| Queue.AttemptsBounded | work/pg_queue.go:58-193 | in every run attempts are the claims, at most the maximum plus the recoveries, and fewer while pending |
| Queue.NoEarlyClaim | work/pg_queue.go:83-84 | in every run no claim happens before a retrying Fail's time plus its delay |
| Queue.FailReopensIff | work/pg_queue.go:140-165 | Fail makes a completed or failed row claimable again exactly when attempts are left |
| Queue.CompletedRowReopens | work/pg_queue.go:126-165 | a run in which a completed row is failed late and becomes claimable again |
| Lease.OneActive | work/pg_queue.go:79-193 | in every run at most one claim of a row is unreported and in time |
| Lease.ReportFindsOwnClaim | work/pg_queue.go:79-193 | workers that report once and within the stale timeout always find their row under their own attempt, running, or failed exactly when it was cancelled during that attempt; a Fail writes over the row it read but for that status |
| Lease.FinishedIsFinal | work/pg_queue.go:126-193 | under that discipline a completed or failed row whose last attempt was not cancelled while running never changes and is never claimed again |
| Lease.FinishedChangesOnlyByCancelled | platform/task/handler.go:80-93 | and any finished row is never claimed and changes only by the report of the claim during whose attempt it was cancelled |
| Lease.CancelledRowReopens | platform/task/handler.go:80-93 | a run in which such a report puts a cancelled row back into the queue |
| Registry.Registry.Register | provider/registry.go:47-60 | a taken name changes nothing; a feature conflict leaves the provider registered with the features before it |
| Registry.ListedKeeps | provider/registry.go:53-58 | no feature changes hands; registration succeeds exactly when the listed features are distinct and free |
| Registry.Resolver.Visit | provider/registry.go:85-112 | lists the provider after all its dependencies, or proves a dependency missing or circular; ends on every graph |
| Registry.OrderMeansResolvable | provider/registry.go:77-122 | an order with every dependency first exists only without missing dependencies and cycles |
| Registry.Registry.ResolveDependencies | provider/registry.go:80-122 | for every map iteration order, succeeds exactly when all dependencies are registered and the graph has no cycle, leaving each provider once with dependencies strictly earlier; walking in such an order leaves that order; a failure keeps the old one and names a dependency that is missing or a provider on a cycle |
| Registry.Registry.InitAll | provider/registry.go:125-137 | calls Init along the order up to and including the first failure, all of it when there is none, never before the dependencies' own Init succeeded |
| Registry.Registry.ShutdownAll | provider/registry.go:140-147 | calls Shutdown in reverse up to and including the first failure, all of it when there is none |
| Registry.ReverseStops | provider/registry.go:139-147 | no provider is stopped before one that depends on it |
| Registry.RegisterKeepsFeatures | provider/registry.go:47-60 | every feature keeps belonging to a registered provider that lists it |
| Features.FeatureNameFails | provider/registry.go:100-103 | a dependency that is a feature but no provider's name makes resolution fail |
| Features.AvailableButUnresolved | docs/provider-guide.md:65-66 | two providers whose one dependency is an available feature, without a cycle, and no resolution |
| Features.ShadowedFeatureComesLate | docs/provider-guide.md:65-66 | three providers where resolution succeeds with a feature's provider after the one that needs it |
| Features.EponymousKeeps | docs/provider-guide.md:65-66 | with dependencies on features named after their providers, resolution succeeds exactly when the feature graph has no cycle, and every order puts the features' providers first |
| Features.FeaturesFirstIff | docs/provider-guide.md:65-66 | every order with dependencies first puts the features' providers first exactly when each lies below the provider that needs it along the names |
| Dispatch.KeyCollisionIff | workflow/dispatch.go:26-28 | two pairs share a key exactly when a dot in a resource type lets the text be cut twice |
| Dispatch.KeyFindsPair | workflow/dispatch.go:31-46 | without dots the handlers under a key are exactly those registered for its pair |
| Dispatch.DottedLookupLeaks | workflow/dispatch.go:26-28 | with a dot a lookup can return another pair's handler |
| Dispatch.SortSlice | workflow/dispatch.go:48-54 | a permutation with no later handler before an earlier one |
| Dispatch.DispatchTable.Register | workflow/dispatch.go:31-36 | the handler joins those registered before it |
| Dispatch.DispatchTable.Lookup | workflow/dispatch.go:40-57 | exactly the handlers registered under the key, each as often as registered, sorted by phase and priority |
| Dispatch.Dispatcher.SubmitPre | workflow/dispatcher.go:69-81 | all pre handlers up to and including the first that stops |
| Dispatch.Dispatcher.FindMain | workflow/dispatcher.go:83-88 | the first main handler, if any |
| Dispatch.MergeInputs | workflow/dispatcher.go:267-276 | the union of both maps, the overlay winning |
| Dispatch.Dispatcher.SubmitPost | workflow/dispatcher.go:110-127 | all post handlers, with the input overlaid by the main run's outputs |
| Dispatch.Dispatcher.Dispatch | workflow/dispatcher.go:57-130 | the planned submissions and outcome for any executor; the main run is tracked, with its identifier, type, target, event and time, exactly when there is a target and it is neither completed nor failed, and nothing else of the map changes |
| Dispatch.PlanInOrder | workflow/dispatcher.go:50-130 | for any executor submissions go pre, main, post and by priority; at most one main handler, of minimal priority; every pre and post handler unless a pre handler or the main submission stopped it |
| Dispatch.PlanStopsIff | workflow/dispatcher.go:69-93 | rejected exactly when some pre submission fails or comes back failed, the first such handler being the last submission; without a main run exactly when the main submission fails, which then is the last |
| Dispatch.PlanInputs | workflow/dispatcher.go:69-127 | pre and main handlers get the dispatch input; post handlers get it with the main run's outputs over it, key by key |
| Tracking.RunsConserved | workflow/dispatcher.go:95-106 | at every moment but between a callback and its removal, every run ever tracked is still tracked unchanged or was called back exactly once with a terminal status |
| Tracking.TrackedRuns.PollRun | workflow/dispatcher.go:213-240 | continues the run of the machine: a terminal answer makes one callback and then removes the run, dispatches in between included |
| Tracking.TrackedRuns.PollOnce | workflow/dispatcher.go:205-241 | a whole round, with dispatches at every point where the lock is free, continues the run of the machine that conserves runs, calls back exactly the runs tracked at its start whose answer is terminal, and keeps the others |
| Tracking.ReusedIdIsLost | workflow/dispatcher.go:231-239 | after a reachable terminal answer, a run tracked under the identifier being removed is lost, so identifiers must be fresh |
| Bus.NeverPanics | events/pg_bus.go:114-218 | in every interleaving the lock allows subscribed channels are distinct and open, nothing is sent to a closed channel and none is closed twice |
| Bus.DeliveredInOrder | events/pg_bus.go:192-204 | what a subscriber received and has buffered (at most 100) are the notifications since it subscribed, in order, missing only those that did not match, found exactly 100 of its notifications unread, or came after its context ended; the last are exactly those whose context check came after that |
| Bus.OnlyWantedKinds | events/pg_bus.go:114-203 | in every run what a subscriber received or has buffered is of a kind it subscribed with, or it subscribed to all; what was passed over as unmatched is of none of them |
| Bus.PgBus.Subscribe | events/pg_bus.go:114-139 | a new open, empty channel with the requested kinds joins the subscribers at the end |
| Bus.PgBus.Deliver | events/pg_bus.go:192-204 | whatever contexts end and consumers receive before and within each turn, the state after is exactly the one delivery of the machine: the notification offered to every subscriber in turn |
| Bus.PgBus.OfferOne | events/pg_bus.go:193-203 | one turn of that loop is exactly the machine's check and, when it passes, its offer, with the given interference in between |
| Bus.PgBus.CheckContext | events/pg_bus.go:194-196 | is the machine's check, from the state before |
| Bus.PgBus.Send | events/pg_bus.go:197-202 | is the machine's offer, from the state before; its send meets an open channel even when the context has ended since the check |
| Bus.PgBus.RemoveSub | events/pg_bus.go:208-218 | the channel leaves the slice, order kept, and is closed once |
| Loop.NoLostKick | work/loop.go:38-84 | a kick since the last start is pending, or only the cancellation check precedes the next start; kicks cause no more wake-ups than there were kicks |
| Loop.NoWorkAfterSeenCancel | work/loop.go:48-57 | a check that sees the cancellation stops the loop: whatever follows, no work starts |
| Loop.CancelledStarts | work/loop.go:38-59 | after cancellation work starts at most once more, and only when the last check was already passed |

## Left out

- GORM, PostgreSQL, pgx, Valkey and gRPC internals, and database or connection errors: only the visible effect of each statement is modelled.
- HTTP handlers, CLI, start-up, OpenAPI, metrics, logging, generated protobuf code, authentication, tenancy: plumbing without a hard property.
- Update: the Save path for types without the resource accessors is not modelled; every resource of the repository embeds them.
- ClauseReadableIff: a left side that is SQL but no column, such as a number in `5 = ?`, is not a condition on columns, and the reader refuses it.
- PartialUpdate: field maps that set `org_id` or `name` are not modelled, so keys never change.
- Create: `created_at` and `updated_at` are not columns of the model.
- List: caller-chosen sort strings are not modelled, since ties leave page order unspecified; names are compared character by character, and a page holds the rows' names. The filter clause is taken as one operand of the AND with the organisation and soft-delete conditions.
- The base64 and JSON form of continue tokens: a token is its offset; forged tokens are not modelled.
- ListChildren, mixins, traits, the proto adapter and secret redaction copy or select fields and promise no more than that.
- The in-memory queue has no retries, delays or recovery, and the in-memory bus never closes a channel, so what is proved here does not arise; the Valkey variants are not modelled.
- RunKeepsForest: stated for whole operations and for callers that leave re-parenting to Create and Update and soft deletion to Delete; without that it is false, and the exact condition is `WriteKeepsForestIff` and `SoftDeleteKeepsForestIff`.
- FinishedIsFinal: stated for rows not cancelled while running; without that it is false (`CancelledRowReopens`), and `FinishedChangesOnlyByCancelled` says what can still change.
- SortSlice: works on a sequence; that Go sorts a copied slice in place is not captured, and ties stay in any order.
- RemoveFinalizer: the shared backing array of the Go slice is not modelled.
- ResolveDependencies: what providers do in Init and Shutdown is reduced to whether it fails; a provider registered after resolution is not in the order.
- NoLostKick: the endless loop is a state machine over its steps, not a method; how long a sleep lasts is not modelled.
- Publishing, the notification connection, reconnecting and event clean-up of the bus: input and output.
- Liveness under real schedulers and timers: all concurrent results are safety over steps.
- Text is a sequence of Unicode characters; ill-formed UTF-8 is not modelled.
