# agent-comms in Dafny

A model of the parts of agent-comms whose correctness is hardest to see from the code, with proofs of
what they keep over every input and every run. `dafny verify dfyconfig.toml` checks all of it; there is no
axiom and no unproved assumption. Nothing here runs the original program.

The message bus appends records to one log, gives each a sequence once, answers resends with their
original, and derives its indexes in the same transaction (`Publication`, `Activity`, `RouteKeys`,
`BusStores`, `Paging`). Readers hold unread and unseen counts and advance them by counting only what
changed (`Unread`, `DisplayUnread`, `RouteCounts`, `UnseenCounts`). The coordinator binds wake claims to
executions and runs each execution as numbered, fenced attempts that start, advance, settle, are retried or
are recovered after a dead process (`Claims`, `Attempts`, `Coordinators`, `CoordinatorInvariant`,
`CoordinatorHistory`, `CoordinatorTheorems`, `CoordinatorRetries`, `AttemptHistories`, `AttemptStores`). The
channel catalog is a forest of preferences with renameable tags (`Catalog`). The repository's own tools move
imports, place modules in layers and inline stored record schemas (`ImportGraphs`, `Hoists`, `Layers`,
`StoredFormats`), and its subagent extension maps items with bounded concurrency (`WorkerPool`).

## How it is modelled

- A committed transaction is one atomic step. Tables are maps and sequences; a refusal is a value and
  leaves the state as it was. Clocks, generated tokens, process and registry facts are parameters.
- Code that computes values is functions; objects that update fields are classes (`AttemptStore`,
  `AssignmentStore`, `CatalogDocument`, `ChannelCatalog`, `ImportGraph`, `ImportHoist`, `Bus`, `Pool`) whose
  methods are proved equal to step functions, and the laws are proved of runs of those functions.
- Integers are unbounded as in Python; timestamps of messages are `real`.
- SQL queries are modelled by what they count, including join multiplicity, `NULL` propagation through
  `max`, and the left join that yields one row when nothing matches.

## Where the code and a simple promise differ

- `_resume_retry` is documented as revoking the prior replay proof. The code leaves it (`StartKeepsReplay`),
  so a later known failure, settled by its owner or by a recovery, is retried on the first one's proof
  exactly when nothing observed since revoked it, the failure may repeat and the budget remains
  (`RetryDefersAgainExactly`, `RecoveryDefersAgainExactly`); `OneProofRetriesTwice` is such a run.
- An input of unknown outcome, deferred without an execution, is not selected as it stands. Without an
  engagement it must become pending again first (`UnengagedDeferralReturnsToPending`), but an execution can
  engage it, and once deferred with that execution it is selected without ever having been pending
  (`EngagementSelectsWithoutPending`).
- `agrees_through` is documented as the highest sequence two cursors read alike. It is sound always and,
  for two different cursors, highest exactly when the prefixes end together or the sequence after the
  shorter prefix was not read (`AgreesThroughIsHighestExactly`); a union of cursors can leave such a sequence (`UnionIsNotHighest`).
- `UnreadQuery.moved` takes the minimum over changed keys, so it raises when none changed. A look at the
  display therefore raises exactly when a query not held has the cursor rows of the held one that counts the
  same (`LookRaisesExactly`), as when the rows come in another order (`ReorderedRowsRaise`).
- The correction of a moved cursor is exact exactly when no cursor is added or dropped beside another of the
  same target (`CorrectionIsExactExactly`, `MixedKeysMiscount`). The keys the bus records are never so mixed:
  channel addresses begin with `#` and take no sender, thread names cannot begin with it
  (src/agent_comms/channel_targets.py:426-431), and a thread's key always names a sender.
- Renaming a tag keeps the parent relation a forest exactly when the new name does not stand above the old
  one (`RenameKeepsForestExactly`, `RenameCanCloseACycle`), and is undone by renaming back exactly when the
  new name was used nowhere (`RenameIsUndoneExactly`).
- A rename is meant to keep who a view selects; it does so exactly as if the old and the new tag were one
  (`RenamedMembershipExactly`). The callers refuse new names that a created or declared tag or a saved view
  has (src/agent_comms/channel_management.py:292-297), which rules out merging two tags in use. A deleted
  tag's name is available again while saved views still name it, and a rename to it then changes their
  members (`RenameToADeletedTagChangesMembership`).
- A module no prefix claims is said to add no violation of its own. Its import is one
  exactly when the import draws a claimed top layer, through unclaimed modules or at once, and the module
  draws a higher one as well (`UnclaimedViolatesByClaims`, `TwoTopsViolate`).
- An import is kept as a cycle whenever it leads back to its module, though moving it would change the load
  cycles only if the module did not load it already (`MoveKeepsCyclesExactly`).
- A record's schema is meant to keep no document-local name. `inlined` leaves the keys beside a recursive
  reference unexpanded, so one can survive there and the stored form then changes with the numbering of its
  definitions (`LocalNameCanSurvive`); the exact conditions are `Settles` and `Unmoved`
  (`StoredFormHasNoLocalName`, `StoredFormIgnoresDefinitionNames`). The codec lays a description, choices and
  an encoded default beside a reference (src/agent_comms/nominal/field_codec.py:848-853), so only a default
  that is itself an object with a local `$ref` makes such a document.
- A plain `append` can take a resendable identity a second time; resends are then refused for good
  (`PlainAppendMakesAmbiguous`).
- Observing messages from zero differs from the stored maximum exactly for channels whose messages all
  predate zero (`ObservedEqualsTheRowExactly`).

## Model

| member | source | states |
|---|---|---|
| CoordinatorInvariant.EveryRunKeeps | src/agent_comms/attempt_store.py:36-168 | every run of coordinator commands keeps the tables consistent: attempts numbered within budget, tokens distinct, pointers exact, phases fitting lifecycles, claims and responses following their execution, audits unique |
| CoordinatorHistory.EveryRunExtends | src/agent_comms/attempt_store.py:49-168 | over every run rows only grow: attempt identities, ended attempts, finished executions, claim modes and bindings and audits never change, revisions and generations never fall |
| CoordinatorTheorems.AttemptsAreContiguous | src/agent_comms/attempt_start.py:67-126 | from the empty coordinator, the attempts of each execution are exactly 1..n with n within its maximum, all but the last known failed, under rising owner generations |
| CoordinatorTheorems.TokensAndPointersAreUnique | src/agent_comms/attempt_start.py:91-126 | in every reachable state no token digest names two attempts, and an owner points at exactly its one live attempt |
| CoordinatorTheorems.StartIsReplayedForEver | src/agent_comms/attempt_store.py:49-63 | repeating a start that succeeded, after any run, returns that attempt's fence and changes nothing |
| CoordinatorTheorems.TokenNamesOneAttempt | src/agent_comms/attempt_start.py:51-89 | a start whose token names another attempt, owner or generation is refused and changes nothing |
| CoordinatorTheorems.UnknownAlwaysFails | src/agent_comms/attempt_store.py:117-147 | failing as unknown succeeds exactly with a current fence, a current pointer revision and no frozen publication, and then the execution is failed, never deferred, and its replay revoked |
| CoordinatorTheorems.UnknownIsNeverReplayed | src/agent_comms/attempt_states.py:328-339 | after an unknown outcome no run adds an attempt to that execution and no start of it succeeds |
| CoordinatorTheorems.FinishedStaysFinished | src/agent_comms/attempt_start.py:67-89 | a completed or failed execution keeps its lifecycle and attempt rows through every run, and cannot be started |
| CoordinatorTheorems.OnlyAuthorizedFailureDefers | src/agent_comms/attempt_states.py:303-326 | a settlement defers the execution exactly for a known failure under retry authority |
| CoordinatorTheorems.RetryRestoresClaimsAndResponses | src/agent_comms/attempt_store.py:65-83 | settling as failed and starting the retry gives each claim back with its mode and binding, every response its state, and leaves all other claims alone |
| CoordinatorRetries.StartKeepsReplay | src/agent_comms/attempt_store.py:65-83 | a start leaves the replay proof as it is, and a retry starts only on a standing one |
| CoordinatorRetries.ProofLasts | src/agent_comms/coordination/tables/executions.py:634-668 | over every run a standing proof stands exactly until an observed effect, a recovery with effects, an unknown outcome or a nonretryable failure revokes it |
| CoordinatorRetries.RetryDefersAgainExactly | src/agent_comms/attempt_store.py:149-168 | after a retry and any run, a settled known failure defers again exactly when nothing since revoked the old proof, the failure may repeat and the budget remains |
| CoordinatorRetries.RecoveryDefersAgainExactly | src/agent_comms/attempt_recovery.py:517-589 | after a retry and any run, a recovery that settles defers again exactly when nothing since revoked the old proof, the stop was a known failure and the budget remains |
| CoordinatorRetries.OneProofRetriesTwice | src/agent_comms/attempt_store.py:65-83 | a run of ten commands that is deferred for a third attempt on its first failure's proof |
| CoordinatorTheorems.MonitorCommitsWhatItSaw | src/agent_comms/attempt_recovery.py:517-589 | an admitted monitor call records process death and any backend completion even when it raises, and settles, releases the pointer and audits exactly when the backend is final and no publication is frozen |
| CoordinatorTheorems.MonitorActsOnce | src/agent_comms/attempt_recovery.py:517-589 | after a monitor call took effect, no later call with that or an older attempt revision changes anything, whatever ran between |
| CoordinatorTheorems.AuditedAtMostOnce | src/agent_comms/attempt_recovery.py:517-589 | over every run an attempt has at most one audit, and only if it ended unsuccessfully |
| CoordinatorTheorems.CompletionIsPublished | src/agent_comms/coordination/snapshot.py:247-351 | in every reachable state a completed execution published every response and its last attempt succeeded, a deferred one may be retried, and a wire execution owes a response |
| AttemptHistories.EveryAttemptFollowsItsHistory | src/agent_comms/attempt_store.py:85-115 | in every run each attempt's row is exactly what the observations and deaths that run recorded for it make of its start, each acceptable in its turn and counted by the revision; an ended attempt was ended where they allowed it |
| AttemptHistories.SuccessIsEarned | src/agent_comms/attempt_states.py:290-300 | in every run an attempt that succeeded was running the model after one command, settling with both final facts after a later one, and live with a final fact outside settling after none |
| AttemptStores.AttemptStore.Start | src/agent_comms/attempt_store.py:49-63 | starting in place equals the start step, including replay and every refusal, and keeps the invariant |
| AttemptStores.AttemptStore.Validate | src/agent_comms/attempt_start.py:67-89 | finds the first failing start condition |
| AttemptStores.AttemptStore.Activate | src/agent_comms/attempt_start.py:91-126 | writes exactly the new attempt, the active execution and the owner's pointer |
| AttemptStores.AttemptStore.RequireFence | src/agent_comms/attempt_store.py:36-47 | accepts exactly a fence that matches the live attempt it names |
| AttemptStores.AttemptStore.Advance | src/agent_comms/attempt_store.py:85-115 | advancing in place equals the advance step |
| AttemptStores.AttemptStore.Settle | src/agent_comms/coordination/snapshot.py:247-313 | settling in place, claim by claim and response by response, equals the settlement step |
| AttemptStores.AttemptStore.FailUnknown | src/agent_comms/attempt_store.py:117-147 | equals the fail-unknown step |
| AttemptStores.AttemptStore.SettleNonpublication | src/agent_comms/attempt_store.py:149-168 | equals the settlement without publication |
| AttemptStores.AttemptStore.TerminalizeDeadAttempt | src/agent_comms/attempt_recovery.py:517-589 | equals the recovery step, also where it commits and then raises |
| Attempts.FinalityFreezesThePhase | src/agent_comms/attempt_states.py:63-80 | along every sequence of observations finality flags only grow, and once either is set the phase is frozen |
| Attempts.AtMostOneMoreObservation | src/agent_comms/attempt_states.py:63-80 | once a final fact is set at most one more observation is accepted, none with progress or another phase |
| Attempts.ContextFollowsTheModel | src/agent_comms/attempt_states.py:156-248 | from the start, a contextual phase is reached only after the model ran |
| Attempts.SuccessWasSettledHonestly | src/agent_comms/attempt_states.py:229-300 | an attempt ready to succeed ran the model and recorded no final fact outside the settling phase |
| Attempts.FinalObservationIsAccepted | src/agent_comms/attempt_states.py:63-80 | observing both final facts is accepted in every live phase that is not final, and then allows the unknown settlement |
| Claims.LoadInvertsProject | src/agent_comms/assignment_states.py:194-207 | a stored projection loads as a claim exactly when it is that claim's own projection |
| Claims.LoadedIsWellFormed | src/agent_comms/assignment_states.py:198-207 | loading succeeds exactly on projections of some well-formed claim |
| Claims.MovedKeeps | src/agent_comms/assignment_states.py:322-351 | a step stays among the declared successors and keeps mode, verdict and an existing binding |
| Claims.RunKeeps | src/agent_comms/assignment_states.py:163-227 | over every run the wake mode is frozen, terminal claims stay, a full wake is never ignored, a pending claim is the one it started as, and every state meets its binding rule and reloads to itself |
| Claims.PreengagementStaysUnbound | src/agent_comms/assignment_states.py:221-227 | preengagement never yields a bound claim, and a deferred claim returns only to its own pending state |
| Claims.UnboundDeferralIsNotReplayed | src/agent_comms/assignment_states.py:485-506 | along any events an unbound deferred claim is not selected before it was pending in its own mode again or engaged; until then it is itself or settled |
| Claims.UnengagedDeferralReturnsToPending | src/agent_comms/assignment_states.py:256-264 | without an engagement it is selected only after it was pending again |
| Claims.EngagementSelectsWithoutPending | src/agent_comms/execution_store.py:119-126 | any engagement that is deferred again selects it, though it never was pending |
| Claims.HarnessWalk | src/agent_comms/assignment_states.py:213-264 | the declared harness steps are all accepted except for a bound deferred claim under delivery, raise the revision by their number, end in delivered or deferred for open claims, and leave settled ones alone |
| Claims.AssignmentStore.Accept | src/agent_comms/assignment_store.py:34-54 | a claim is stored once, in its mode's first state at revision 1; a repeat is answered with the stored row and any conflict changes nothing |
| Claims.AssignmentStore.TransitionIn | src/agent_comms/assignment_store.py:123-150 | a transition applies exactly at the expected revision to a declared successor, else changes nothing |
| Claims.AssignmentStore.RestoreUnboundDelivery | src/agent_comms/assignment_store.py:80-89 | restores exactly an unchanged, unbound, deferred claim to its pending state |
| Claims.AssignmentStore.SettleHarnessInputs | src/agent_comms/assignment_store.py:91-111 | settles the whole batch, or changes nothing when any claim is missing, bound or stuck |
| Publication.EveryRunKeeps | src/agent_comms/bus.py:596-644 | over every run sequences strictly increase, a publication key names one record, and recorded history stays |
| Publication.AnswerHoldsTheContent | src/agent_comms/bus.py:622-644 | every success returns the sequence of a stored record with the proposal's content, adding at most that record at the end |
| Publication.ResendIsAnsweredExactly | src/agent_comms/bus.py:622-644 | after any run, a resend returns its original sequence and adds nothing exactly when its identity still names one record, and is refused otherwise |
| Publication.ResendIsAnsweredForEver | src/agent_comms/bus.py:622-644 | while only resendable and human messages are published, a first success fixes the answer of its resend for ever |
| Publication.KeyIsAnsweredForEver | src/agent_comms/bus_publication.py:99-114 | a keyed publication, repeated after any run, returns its original and adds nothing |
| Publication.PlainAppendMakesAmbiguous | src/agent_comms/bus.py:619-644 | a plain append under a used identity makes every later resend of it refused |
| Publication.RefusalChangesNothing | src/agent_comms/bus.py:596-606 | a refused publication leaves the log as it was |
| BusStores.Bus.Append | src/agent_comms/bus_publication.py:105-114 | appending in place equals the append step and keeps every derived table equal to what the log gives |
| BusStores.Bus.AppendOriginal | src/agent_comms/bus.py:622-644 | publishing once in place equals its step and keeps every derived table |
| BusStores.Bus.AppendHuman | src/agent_comms/bus_publication.py:232-240 | a person's message is refused under a used identity, else appended |
| BusStores.Bus.ProjectAudience | src/agent_comms/bus_publication.py:59-70 | indexes exactly the recipients of a record, and the awaited ones with their thread and turn |
| BusStores.ParticipantsAreFrozen | src/agent_comms/bus_tables.py:45-73 | the sent and received tables hold exactly the senders and frozen audiences of the log |
| BusStores.AwaitingIsFrozen | src/agent_comms/bus_tables.py:76-86 | the answer table holds exactly the awaited answers the records froze |
| BusStores.RouteTableIsTheScan | src/agent_comms/bus_route_counts.py:80-88 | the senders the route table says reach some targets by a revision are those a scan of the log finds |
| BusStores.LastSentIsLatest | src/agent_comms/bus_activity_index.py:67-70 | a sender's clock is the latest time of its conversational messages |
| Activity.RowsAreMaxima | src/agent_comms/bus_activity_index.py:25-32 | a target has an activity row exactly when it has a message, holding the maxima over its messages |
| Activity.ObservedEqualsTheRowExactly | src/agent_comms/activity_clocks.py:30-45 | observing a target's messages one by one gives its row exactly when some message is not before zero |
| Activity.CombinedAreMaxima | src/agent_comms/activity_clocks.py:47-51 | combining rows of any targets in any order gives the maxima over all their messages, and zero for none |
| RouteKeys.IndexHoldsFirst | src/agent_comms/bus_route_counts.py:49-79 | a route is indexed exactly when a message took it, at the least sequence that did |
| RouteKeys.ReachingIsTheScan | src/agent_comms/bus_route_counts.py:80-88 | the indexed senders reaching targets by a revision are those a scan finds |
| RouteKeys.FirstLookupSettles | src/agent_comms/bus_route_counts.py:168-174 | once a message recorded its sender's lookup, every later revision sees the same first lookup |
| RouteCounts.RowTimesIsTimes | src/agent_comms/bus_route_counts.py:141-228 | the indexed and bounded query counts a message of its interval as the definition without index or interval does |
| RouteCounts.RequestsAreDeliveries | src/agent_comms/bus_route_counts.py:190-228 | the addressed and unaddressed parts of the query never both select a message, and together select exactly others' messages to the actor's targets since the sender's birth and the actor's own start, above the floor |
| RouteCounts.FloorIsImplied | src/agent_comms/read_basis.py:471-492 | the floor of broad cursors removes nothing a keyed join would count, and the join counts a message once exactly when it is unread |
| RouteCounts.BoundCountsTheSame | src/agent_comms/bus_route_counts.py:230-254 | binding only the senders that reach the targets changes no count |
| RouteCounts.LaterMessagesKeepTimes | src/agent_comms/bus_route_counts.py:168-174 | appending never changes how an older message counts, also when it brings the first recorded lookup |
| UnseenCounts.Grouped | src/agent_comms/bus_route_counts.py:278-285 | folding grouped rows adds to each actor's conversation what its rows hold, and keeps only positive counts |
| UnseenCounts.GroupingIsTheConversationSum | src/agent_comms/bus_route_counts.py:270-285 | rows grouped by actor, target and sender, in any order, add to a conversation what its messages weigh |
| UnseenCounts.AdvancedUnseenCounts | src/agent_comms/bus_route_counts.py:293-304 | advancing held counts gives, through the current revision, the plain counts of the whole log |
| UnseenCounts.EveryRunIsExact | src/agent_comms/bus_route_counts.py:111-131 | over every interleaving of appends, registry, cursor and input changes each read's counts are the plain counts of the whole log under its own facts |
| UnseenCounts.TalliesAgree | src/agent_comms/bus_route_counts.py:287-304 | two counts of the same messages are the same value, so advancing equals counting from zero |
| UnseenCounts.AnswersExist | src/agent_comms/bus_route_counts.py:273-276 | the grouped query has an answer for every log and held value |
| Unread.AgreesThroughIsSound | src/agent_comms/read_basis.py:419-425 | two cursors read every sequence alike through the one returned |
| Unread.AgreesThroughIsHighestExactly | src/agent_comms/read_basis.py:419-425 | for two different cursors it is the highest such sequence exactly when the prefixes end together or the one after the shorter prefix was not read |
| Unread.UnionReadsEither | src/agent_comms/read_basis.py:398-403 | joining two cursors reads exactly what either read |
| Unread.UnionIsNotHighest | src/agent_comms/read_basis.py:419-425 | two joined cursors that read alike for ever, though the returned sequence is 1 |
| Unread.Add | src/agent_comms/read_basis.py:405-417 | marking sequences reads exactly those more, and leaves no exception touching the prefix |
| Unread.CountedOnce | src/agent_comms/read_basis.py:485-492 | with keyed cursors the join counts a message once or not at all, as its own and the whole-bus cursor read it |
| Unread.ChannelQueriesAreProper | src/agent_comms/read_basis.py:1121-1123 | a channel scope's query is keyed, and everything at or below its lower bound is read |
| Unread.AnyTargetQueriesAreProper | src/agent_comms/read_basis.py:1021-1022 | so is a query over any target, bounded by the whole-bus cursor |
| Unread.CountIsHowManyAreUnread | src/agent_comms/bus.py:506-522 | a proper query counts exactly how many selected messages of others, through the revision, are unread |
| Unread.CorrectionIsExactExactly | src/agent_comms/read_basis.py:1241-1264 | for cursors with distinct keys, the earlier count less its part and plus the current part is the current count over every log exactly when the messages left out join as many cursors before and after |
| Unread.CorrectionIsExact | src/agent_comms/read_basis.py:1241-1264 | which proper queries meet, so their correction is exact |
| Unread.MixedKeysMiscount | src/agent_comms/read_basis.py:485-492 | a sender's cursor added beside a channel's own doubles the count and is corrected wrongly |
| DisplayUnread.RaisesExactlyOnReorderedRows | src/agent_comms/read_basis.py:1241-1257 | no key changed between two queries exactly when they have the same cursor rows |
| DisplayUnread.LookRaisesExactly | src/agent_comms/bus.py:133-157 | a look raises exactly when it has something to do and some query not held has the cursor rows of the held one that counts the same |
| DisplayUnread.ReorderedRowsRaise | src/agent_comms/bus.py:133-157 | a channel display whose rows come in another order raises |
| DisplayUnread.AdvancedIsExact | src/agent_comms/bus.py:119-157 | advancing kept, moved, fresh and dropped queries gives what counting every query over its whole interval gives |
| DisplayUnread.EveryRunIsExact | src/agent_comms/bus.py:119-157 | over every run of arrivals, reads and selections the held counts are whole-interval counts through the held revision, and current after each look that does not raise |
| DisplayUnread.ChannelRunsAreExact | src/agent_comms/bus.py:506-522 | for channel displays all of this holds whatever was read |
| Paging.PageIsTheFirst | src/agent_comms/bus.py:381-399 | a page is ordered and without repeats, stops only at its limit, and what it leaves out follows it |
| Paging.Conversation | src/agent_comms/bus.py:401-413 | gathering one limited page per participant index and cutting again gives the page of everything they hold |
| Catalog.ForestHasNoCycle | src/agent_comms/catalog_document.py:163-171 | every walk to the parents ends exactly when no channel stands above itself |
| Catalog.ValidateParents | src/agent_comms/catalog_document.py:163-171 | the walk with a visited set terminates and accepts exactly the forests |
| Catalog.MoveKeepsForestExactly | src/agent_comms/catalog_document.py:174-188 | setting a parent keeps a forest exactly when it is another channel not below the moved one |
| Catalog.RemovalKeepsForest | src/agent_comms/catalog_document.py:137-142 | removal keeps a forest, leaves no parent naming the channel, and touches nothing else |
| Catalog.RenameKeepsForestExactly | src/agent_comms/catalog_document.py:311-336 | a rename keeps a forest exactly when the new name does not stand above the old |
| Catalog.RenameCanCloseACycle | src/agent_comms/catalog_document.py:311-336 | renaming a channel to its parent's name closes a cycle |
| Catalog.RenameMovesEveryMention | src/agent_comms/catalog_document.py:311-336 | after a rename nothing mentions the old name, and every other channel only follows the change of parent |
| Catalog.RenameBackExactly | src/agent_comms/catalog_document.py:311-336 | renaming back restores the preferences exactly when the new name was unused |
| Catalog.RenamedMembershipExactly | src/agent_comms/channels.py:359-394 | after a rename a view selects a thread renamed alike exactly when the old and new tag taken for one match, so selection stays exactly where it held or would not hold even then |
| Catalog.RenameKeepsMembership | src/agent_comms/channels.py:359-394 | for a thread without the new tag, selection changes exactly when it has the old tag and the view names the new one, did not select it and requires nothing else it lacks |
| Catalog.RenameToADeletedTagChangesMembership | src/agent_comms/catalog_document.py:237-264 | deleting a tag leaves its name available while a view names it; renaming another tag to it, which the guard and validation accept, lets that tag's threads into the view |
| Catalog.TagsBackExactly | src/agent_comms/catalog_document.py:311-336 | renaming a tag back restores a tag set exactly when the new tag was not in it |
| Catalog.RenameChangesTheCatalogExactly | src/agent_comms/catalog_document.py:311-336 | after any rename the old name is gone, the document is valid exactly when the new channel does not stand above the old, and views select as if the two tags were one |
| Catalog.FreshRenameKeepsTheCatalog | src/agent_comms/catalog_document.py:311-336 | so a rename to a name used nowhere keeps the document valid and every view's members |
| Catalog.RenameIsUndoneExactly | src/agent_comms/catalog_document.py:311-336 | renaming back restores the whole document exactly when the new name was used nowhere in it |
| Catalog.DeletionKeepsTheCatalog | src/agent_comms/catalog_document.py:311-336 | deleting a tag keeps the document valid and leaves no mention of its channel |
| Catalog.CatalogDocument.Validate | src/agent_comms/catalog_document.py:152-161 | accepts exactly the valid documents |
| Catalog.CatalogDocument.SetMetadata | src/agent_comms/catalog_document.py:174-188 | refuses, unchanged, a channel or parent that is unknown or built in; else writes the parent and archive flag, and accepts exactly when the parents stay a forest |
| Catalog.CatalogDocument.RemoveChannel | src/agent_comms/catalog_document.py:137-142 | removes the channel and clears the parents naming it |
| Catalog.CatalogDocument.ChangeTag | src/agent_comms/catalog_document.py:311-336 | renames or deletes a tag in tags, views and preferences, and refuses exactly an unchangeable tag or an unbuildable view |
| Catalog.ChannelCatalog.Change | src/agent_comms/catalog_store.py:31-41 | commits exactly a valid mutation of a copy, so the stored document stays valid whatever is attempted, and a refused change leaves it untouched |
| ImportGraphs.ImportGraph.Reached | tools/module_layers.py:529-540 | the worklist ends and returns exactly the modules reachable by imports and parent packages |
| Hoists.AddedImportsReach | tools/module_layers.py:526-540 | after adding imports to a module, what is reachable is exactly what was, and what the new imports reached, from whatever reached the module |
| Hoists.MoveKeepsCyclesExactly | tools/repairs.py:363-383 | new imports of a module leave every pair of modules loading each other as it was exactly when each that leads back to it was loaded by it already |
| Hoists.HoistingKeepsCycles | tools/repairs.py:129-157 | over all files, two modules load each other after hoisting exactly when they did before |
| Hoists.MovedImportStaysOffCycles | tools/repairs.py:363-383 | however many files follow, a moved import is loaded by its file and never loads it back |
| Hoists.MovedNamesHaveOneText | tools/repairs.py:326-342 | moved imports that share a name share one text, which the file's own top level does not contradict |
| Hoists.EveryImportIsMovedOrTallied | tools/repairs.py:298-303 | every local import is moved or tallied once under its own reason |
| Hoists.FunctionLosesItsMovedImports | tools/repairs.py:371-383 | a function loses exactly its moved imports, in order |
| Hoists.ImportHoist.Judge | tools/repairs.py:281-383 | gives the first verdict that holds, deciding cycles by the computed closure |
| Hoists.ImportHoist.FileOperations | tools/repairs.py:148-157 | running over a file in place equals judging and taking its imports in order, and adds no load cycle |
| Layers.ChainImportsBelow | tools/module_layers.py:75-120 | a layer of the chain may be imported by exactly the layers at or above it |
| Layers.TopImportedByItselfOnly | tools/module_layers.py:75-120 | a top layer may be imported only by itself |
| Layers.TopLayers | tools/module_layers.py:79-120 | the top layers are exactly the three that nothing stands on |
| Layers.UnitLayers | tools/module_layers.py:611-633 | the loop ends with the least assignment that keeps claims and places unclaimed units at least as high as what they import |
| Layers.LeastIsUnique | tools/module_layers.py:611-633 | that assignment does not depend on the order of the edges |
| Layers.UnclaimedViolatesOnlyAcrossTops | tools/module_layers.py:642-651 | in it an unclaimed unit's import is a violation exactly when it targets another top layer |
| Layers.LeastIsHighestDrawn | tools/module_layers.py:611-633 | it gives each unit its claim, or the highest claim it imports through unclaimed units, or the lowest layer |
| Layers.UnclaimedViolatesByClaims | tools/module_layers.py:642-651 | so by claims and imports alone, an unclaimed unit's import is a violation exactly when the import draws a top layer and the unit draws a higher one |
| Layers.TwoTopsViolate | tools/module_layers.py:642-651 | a unit importing two claimed top layers has a violation whatever layer it takes |
| StoredFormats.Inlined | tools/stored_formats.py:24-48 | inlining terminates on every schema and definition set, also recursive ones, and keeps objects objects and strings themselves |
| StoredFormats.InlinedExactlyWhenUsable | tools/stored_formats.py:24-48 | it succeeds exactly when every reference it meets is defined by a schema, or, where it recurs, by a declaration with a name |
| StoredFormats.ClosedIsInlined | tools/stored_formats.py:24-48 | so a document whose references are all defined by schemas is inlined exactly when every definition met inside itself declares a name |
| StoredFormats.LocalFreeExactlyWhenSettled | tools/stored_formats.py:24-48 | the result has no local name exactly when every recursive reference settles: its declared name is not local, nor is anything beside it |
| StoredFormats.PlainReferencesSettle | tools/stored_formats.py:24-48 | so plain references always settle |
| StoredFormats.NamesMatterExactly | tools/stored_formats.py:24-48 | a one-to-one renaming of the definitions never changes success, and keeps the result exactly when no key beside a recursive reference holds a reference it renames |
| StoredFormats.StoredFormIgnoresDefinitionNames | tools/stored_formats.py:51-57 | a renumbering of the definitions keeps a stored form exactly when it renames no reference beside a recursive one |
| StoredFormats.StoredFormHasNoLocalName | tools/stored_formats.py:51-57 | a stored form holds no local name exactly when every recursive reference settles, as in plain documents, and then no renumbering changes it |
| StoredFormats.LocalNameCanSurvive | tools/stored_formats.py:51-57 | a whole document whose stored form keeps the local name `d0` and changes exactly with the renumberings that rename it |
| WorkerPool.EveryScheduleIsSound | extensions/pi-subagent/index.ts:219-237 | under every order of completions indexes are claimed once and in order, at most the limit are in flight, and results sit at their own index |
| WorkerPool.SettleIsSound | extensions/pi-subagent/index.ts:228-234 | each completion keeps this and lowers a measure |
| WorkerPool.EndIsComplete | extensions/pi-subagent/index.ts:228-236 | with nothing in flight and no failure every result is present |
| WorkerPool.Limit | extensions/pi-subagent/index.ts:224-225 | the number of workers is between one and both the concurrency and the number of items |
| WorkerPool.Pool.Settle | extensions/pi-subagent/index.ts:228-234 | a completion in place equals the completion step |
| WorkerPool.MapWithConcurrencyLimit | extensions/pi-subagent/index.ts:219-237 | returns every call's value in order exactly when every call resolves, else some call's own rejection |

## Left out

- SQLite connections, locking, schema reconciliation, rebuilding projections and copied history.
- Reading process tables, session files and native journals during recovery: the monitor step takes the acquired facts as arguments.
- Owner sockets, the agent protocol server, command lines, rendering and notifications.
- Lease renewal and expiry, reason codes, `updated_at` of attempts and the release of resources after a settlement.
- A deferred execution without an attempt: no store writes one.
- Restoring missing catalog entries, pins, list order and the editing of saved views.
- Display index rows, answered-source rows, task projections and the validation of the messages a record answers.
- A read rule that reads tables besides the bound inputs: unseen counts are modelled for the human read rule.
- Direct conversations as the source of cursor rows: display queries are built from channel and whole-bus cursors only.
- Empty sender lookups: the route index treats an absent and an empty lookup alike.
- Unread.CorrectionIsExactExactly: does not cover one key bound twice, because `moved` keeps only the last row of a key.
- Catalog.CatalogDocument.ChangeTag: does not say which views were already rebuilt when a later one cannot be, because the copy is then discarded.
