# Durable state: a verified model

The repository keeps all its durable state in files under `.brain/`. This project models the parts of it where a
mistake would lose or corrupt that state, and proves what they keep. It is pure Dafny; `dafny verify
dfyconfig.toml` checks all of it.

**Durable transactions** (`Plans`, `Recovery`, `RecoveryDecision`, `Layouts`, `Traces`, `DurableStore`,
`Conduct`, `Execution`, `RecoveryDriver`, `Classification`, `Sessions`, `Relationships`, `Guarantees`). `Store`
is a disk whose primitives change one thing at a time. Its `budget` is the number of durable changes that the
current process lives to make, so a contract that holds for every budget holds for a crash between any two of
them; every step says how much of it it spends at most, so that a process with a large enough budget is known to
finish. If the store is not `quiet`, other writers may change any destination before any call. Its ghost `trace`
lists what was looked at, landed and recorded, and its ghost `unsupported` counts the directory syncs that the
host answered so. `DriveExecution` and `DriveRecovery` are the drivers, step by step; `Session` is any script of
executions and recoveries, each by a process that may die anywhere, and reports what every call answers. The
central results: the tree is always the starting tree with whole submitted plans applied one after the other,
and at most a prefix of the one unfinished plan on top; every crash layout is read back and recovery decides it
correctly; for documents and observations of any kind, each decision is made exactly where it is called for; an
execution that is not cut short is answered exactly by what stands in its way, with a receipt if nothing does,
which says "unsupported" exactly if some directory sync was answered so, and with a demand for recovery only
where a transaction is left to recover; a recovery that is not cut short ends, within a number of changes that
is linear in the plan, exactly if it rolls back or every operation's parent is a directory or is created before
it (`StrandedExample` is an accepted plan for which that fails, and which can then neither finish nor abort);
the lease fence; and no write lands twice, or where the last look at its destination did not find what it
expected (a lock artifact may be found already written).

**From effects to transactions** (`Effects`, `PlanNormalization`, `Composition`). Effects that may stand
together can be performed exactly if each fits what is there at the start, and then every path is left as they
say: deleted, written, a directory, or as before. Normalized plans mean what their effects mean one after the
other, pass the manager's own checks, and always satisfy the condition under which recovery finishes. So
`ApplyPlan`, in a project nobody else writes to, is refused exactly for a crash left unrecovered, and otherwise
a process that lives long enough does what the effects mean exactly if they can be decided, and every effect is
then carried out.

**Event stores** (`EventLog`, `EventStores`). A stream is accepted exactly if its events are numbered and
linked; an append is prepared exactly if the store agrees, the revisions follow on and the services accept it,
and it adds the caller's own draft. Log and snapshot of a run agree after every history of appends, crashes and
recoveries, and logs grow by whole events.

**Locks** (`LockNamespace`, `LockWorkers`, `LockSafety`, `LockGuarantees`, `LockProgress`, `LockLife`). Workers
are state machines whose steps interleave in any order and which may stop anywhere. One invariant with rely
conditions gives exclusion, single consumption of candidates, and helpers that only move a retirement forward; a
lone helper clears whatever crashed helpers have left, exactly if it may be cleared; and undisturbed, a claim is
published, released, retired or recovered, and a candidate thrown away.

**Standalone algorithms.** The Codex patch parser (`PatchText`, `PatchGrammar`, `PatchParser`,
`PatchCompleteness`, `CodexPatch`, `PatchSpelling`) accepts exactly the loose prints of a grammar, and a patch
spelled out letter by letter means what it says; the lineage check (`Lineage`) decides admissibility; the differ
(`JsonText`, `Sorting`, `JsonTree`, `JsonPointers`, `Differ`, `DifferExactness`, `DifferCompleteness`) reports
exactly the deepest places that differ, with their kinds, by content and by digest, with pointers after sections
3 and 4 of RFC 6901; the normalizer (`Normalizer`, `NormalizerRules`) applies a rule exactly where it may,
writes exactly what the rule says, and keeps every decision, exactly for the pointers that do not reach one past
a line break; a task document (`CriteriaLines`, `CriteriaDocument`, `CriteriaReading`) reads as valid exactly if
it declares its criteria where they belong, one that is well built reads as valid with the criteria that were
written (`CriteriaWriting`), and when rendered reads back with the new ticks and nothing else changed; criteria
are append-only, and verdicts exact down to the reason and the criterion of a refusal (`CriteriaPolicy`); and
the repository scan (`RepositoryScan`) is breadth first.

Modelling conventions. A digest is taken to be injective, so a file's fingerprint is its content, a recovery
token is the document it digests, and a directory named by a digest is named by the record. Paths are sequences
of segments; `operation-N` is the number N. Case folding is an arbitrary function. JSON numbers are integers and
strings are compared character by character, also where the code collates by locale. Durable primitives are
atomic, except that a synced write is torn before it is whole; an entry lies in a directory, and an existing
project has a `.brain` directory, which preflight insists on. The time, the identifiers, schema validation and
the callers' reducers are parameters.

Where the code and its comments disagree, the code is followed. Three places: the normalizer's protection, said
to hold at any depth, is matched by a pattern that does not cross a line break (`Normalizer.PointerKeepsFrame`);
the comment at packages/runtime/src/composition/locks.ts:1135-1140 describes two published generations side by
side, which the exclusive rename rules out (`LockGuarantees.AtMostOneGeneration`); and a plan handed directly to
the transaction manager need not have its parents ready (`Guarantees.StrandedExample`).

## Model

| member | source | states |
|---|---|---|
| Recovery.ScanDestinations | packages/runtime/src/domain/transactions/recovery.ts:115-163 | one pass finds the run of published operations and the first later one that is not as expected |
| Recovery.DecideRecovery | packages/runtime/src/domain/transactions/recovery.ts:13-74 | the loops compute exactly the decision that the specification `Decide` gives, for every manifest, progress and observation |
| Recovery.DecisionsAreLegal | packages/runtime/src/domain/transactions/transition.ts:11-18 | recovery never asks for an illegal phase change |
| Layouts.DecisionOfLayout | packages/runtime/src/domain/transactions/recovery.ts:13-163 | from every directory that a crash can leave the decision is the one that leads on, and never `Blocked` |
| RecoveryDecision.DecisionExact | packages/runtime/src/domain/transactions/recovery.ts:13-163 | for any two documents and any observation, each decision that leads on is made if and only if the documents fit, and destinations and payloads are as that decision needs them |
| Plans.ParentReadyExact | packages/runtime/src/composition/transactions.ts:2233-2253 | whether the parent is a directory when its operation comes up can be read off the starting tree |
| DurableStore.Store.Publish | packages/runtime/src/composition/transactions.ts:2278-2297 | the one primitive that changes a destination: what it needs, what it consumes, what it leaves alone |
| Conduct.CheckAll | packages/runtime/src/composition/transactions.ts:474-491 | a check passes only on fingerprints really seen since the last landing |
| Conduct.PersistProgress | packages/runtime/src/composition/transactions.ts:1966-1992 | progress changes by one atomic replace, and then tells of every directory sync up to it; a crash leaves the old document and perhaps a scratch file |
| Execution.CleanupTransaction | packages/runtime/src/composition/transactions.ts:2014-2061 | removes staging and scratch and nothing else; interrupted, it has removed some of it; a bound on its changes |
| Execution.CheckNext | packages/runtime/src/composition/transactions.ts:1007-1018 | an operation may land only right after authority, guards, parent and destination were seen as they must be; alone, it stops only an impeded plan |
| Execution.PublishAll | packages/runtime/src/composition/transactions.ts:1007-1037 | landings, records and staged payloads advance together, whatever stops the loop, at no more than five changes an operation |
| Execution.DriveExecution | packages/runtime/src/composition/transactions.ts:885-1060 | whatever stops an execution leaves a sound transaction with no payload moved twice; alone, one that does not die commits if and only if the plan is unimpeded, and none dies that lives for `ExecutionCost` changes; the receipt says "unsupported" if and only if a directory sync of this execution was answered so |
| Execution.GuardsReadOff | packages/runtime/src/composition/transactions.ts:588-602 | whether the guards stand after some operations can be read off the starting tree and the plan |
| Execution.InterruptedReadOff | packages/runtime/src/composition/transactions.ts:1007-1040 | a plan is interrupted by its own guard if and only if the first operation that spoils one is reached and so is the parent of the next |
| Execution.ObstacleExact | packages/runtime/src/composition/transactions.ts:885-1040 | alone, nothing stands in the way of exactly the unimpeded plans, and recovery becomes due exactly after those that spoil their own guards and could go on |
| RecoveryDriver.ObserveTransaction | packages/runtime/src/composition/transactions.ts:1794-1837 | observes every destination and the staging directory |
| RecoveryDriver.PublishNext | packages/runtime/src/composition/transactions.ts:1206-1262 | publishes or records the one next operation, after looking at it again, at no more than five changes |
| RecoveryDriver.RecoveryTurn | packages/runtime/src/composition/transactions.ts:1171-1335 | a turn that does not end recovery brings it closer, and pays for itself out of the changes that were still ahead |
| RecoveryDriver.RecoveryLoop | packages/runtime/src/composition/transactions.ts:1171-1335 | the loop ends within the changes ahead of it, in a receipt or in one of the named obstacles, and dies only with fewer lives than that |
| RecoveryDriver.RecoverWithoutManifest | packages/runtime/src/composition/transactions.ts:2094-2177 | a transaction that never bound its manifest is aborted and removed by every process that lives for the changes this takes, and nothing landed |
| RecoveryDriver.DriveRecovery | packages/runtime/src/composition/transactions.ts:1136-1335 | authorized publications roll forward, all others back, and no payload is moved twice; alone, one that does not die reaches a receipt if and only if it rolls back or every parent is ready, and none dies that lives for `RecoveryCost` changes; the receipt says "unsupported" if and only if the document at the start did or a directory sync since was answered so |
| Classification.ClassifyPublishing | packages/runtime/src/composition/transactions.ts:1485-1533 | a publication that failed is corrupt if and only if, alone, its next parent is missing; otherwise recovery is required |
| Classification.FinalizeTerminal | packages/runtime/src/composition/transactions.ts:2084-2092 | a clean terminal transaction is answered with its receipt, within four changes, and with the directory sync that its document and this process know of |
| Guarantees.PublishingInvariant | packages/runtime/src/composition/transactions.ts:1007-1051 | the record is a prefix, recorded operations are at their result, those beyond the next as expected, and payloads are staged exactly for unpublished writes |
| Guarantees.AllOrNothing | packages/runtime/src/composition/transactions.ts:885-1060 | a terminal transaction has all its results or has changed nothing |
| Guarantees.NextOperationPublishable | packages/runtime/src/composition/transactions.ts:1206-1244 | the next operation of a recovery goes through if and only if its parent is ready, which for a delete in a well-formed tree it always is |
| Guarantees.StrandedExample | packages/runtime/src/composition/transactions.ts:791-836 | an accepted plan that recovery can neither finish nor abort |
| Traces.LeaseFence | packages/runtime/src/composition/transactions.ts:443-491 | after a lock artifact is lost no two operations land, none after a restart, and no commit is recorded without an earlier passed check |
| Traces.NeverOverAStranger | packages/runtime/src/composition/transactions.ts:2233-2253 | an operation lands only where the last look found the expected value, or for a lock artifact the one about to be written |
| Traces.AuthorityExact | packages/runtime/src/composition/transactions.ts:443-467 | a plan is fenced if and only if it has more than two operations and starts with the events and the lease of a lock, and by those two |
| Sessions.SoundIsReadable | packages/runtime/src/composition/transactions.ts:1675-1715 | inspection accepts every marked directory that a crash can leave |
| Sessions.ReadableExact | packages/runtime/src/composition/transactions.ts:1675-1715 | which directories inspection accepts, field by field, and what it then tells of |
| Sessions.InspectManagedTransactions | packages/runtime/src/composition/transactions.ts:1062-1102 | reports every transaction, or none if one cannot be read |
| Sessions.ReconcileUnmarkedTransactions | packages/runtime/src/composition/transactions.ts:1535-1603 | removes, in at most two changes, what was never marked as begun, and nothing has landed for it; keeps all else |
| Sessions.Preflight | packages/runtime/src/composition/transactions.ts:611-624 | asks for recovery if and only if a marked transaction is incomplete, and changes nothing then; passing, every earlier plan counts as a whole or not at all |
| Sessions.ClassifyDriverFailure | packages/runtime/src/composition/transactions.ts:1405-1474 | which answer each directory left by a failed driver gets, for every phase, token and reason |
| Sessions.ExecuteManagedMutation | packages/runtime/src/composition/transactions.ts:105-146 | a marked incomplete transaction is answered with a demand for recovery and left alone, and no other answer demands it unless a marked incomplete transaction is left; alone, an execution that does not die answers exactly to the obstacle in its way, and with a receipt the whole plan is in place; the receipt says "unsupported" if and only if a directory sync was answered so |
| Sessions.RecoverManagedMutation | packages/runtime/src/composition/transactions.ts:1104-1134 | a wrong token is refused and changes nothing; alone and with the inspected token, a recovery that does not die gives a receipt if and only if it rolls back or every parent is ready, and is refused as corrupt otherwise; alone, the receipt says "unsupported" if and only if the document at the start did or a directory sync since was answered so |
| Sessions.MakeCall | packages/runtime/src/composition/transactions.ts:1062-1134 | one call by a process with a given number of lives answers exactly as the state of the project and of the plan demands |
| Sessions.RecoversInTheEnd | packages/runtime/src/composition/transactions.ts:885-1335 | after an execution and any number of recoveries, each of which may die anywhere, one recovery that lives long enough leaves nothing to recover, and the whole plan or nothing |
| Sessions.CloseAccount | packages/runtime/src/composition/transactions.ts:1362-1396 | a terminal, clean transaction adds its whole plan to the history or nothing |
| Sessions.Session | packages/runtime/src/composition/transactions.ts:1062-1134 | every script of calls by crashing processes leaves whole plans, each of which found what it expected, and a prefix of at most one more; every call is answered as it should be |
| Relationships.ValidateManagedRelationships | packages/runtime/src/composition/transactions.ts:791-836 | accepts exactly the plans whose spellings, pairs and created directories fit together |
| Relationships.AcceptedIsValid | packages/runtime/src/composition/transactions.ts:791-836 | accepted plans have distinct destinations, up to case |
| Relationships.PublishingIsLocal | packages/runtime/src/composition/transactions.ts:791-836 | publishing one operation changes no other operation's fingerprint |
| Relationships.ParentCreatedEarlier | packages/runtime/src/composition/transactions.ts:810-835 | below a directory of the plan's own, the immediate parent is created by an earlier operation |
| Relationships.ParentsReadyOfAccepted | packages/runtime/src/composition/transactions.ts:791-836 | which accepted plans can be published, if and only if |
| PlanNormalization.PlanDraft.SynthesizeMissingParents | packages/runtime/src/domain/transactions/normalize.ts:163-186 | creates exactly the missing ancestors, or stops at one that is a file |
| PlanNormalization.PlanDraft.Perform | packages/runtime/src/domain/transactions/normalize.ts:55-72 | an effect is drafted if and only if it fits what the drafts have led to; its path is then as it says, everything above it a directory, and every other path as before |
| PlanNormalization.NormalizeManagedMutationPlan | packages/runtime/src/domain/transactions/normalize.ts:43-79 | refused if and only if two effects differ in case only or cannot stand together, or one does not fit the tree; otherwise the plan leaves every path as the effects say and no other changed, expects what was observed, and can be published |
| PlanNormalization.PublishableIsRelated | packages/runtime/src/composition/transactions.ts:791-836 | every normalized plan passes the manager's relationship check |
| Effects.CompatibleExact | packages/runtime/src/domain/transactions/normalize.ts:117-142 | effects may stand together if and only if no paths or ancestors differ in case only, none comes twice, none comes after one below it, and what is above a later one makes a directory |
| Effects.PerformedExact | packages/runtime/src/domain/transactions/normalize.ts:163-248 | one effect, on its own: when it can be performed and what it leaves at every path |
| Effects.MeaningExact | packages/runtime/src/domain/transactions/normalize.ts:43-79 | effects that may stand together can be performed if and only if each fits the tree at the start, and then a deleted path is missing, a written one holds its content, a made one and all above it are directories, and every other is as before |
| Composition.DecideMutation | packages/runtime/src/composition/index.ts:287-372 | refuses exactly the undecidable plans; a decided plan carries every append of the request |
| Composition.ReachBounds | packages/runtime/src/composition/index.ts:287-372 | a plan that means its effects has at most one operation for each destination and ancestor |
| Composition.StoreWantsExact | packages/runtime/src/composition/index.ts:226-240 | the stores are looked at again exactly as they were when the appends were prepared |
| Composition.ApplyPlan | packages/runtime/src/composition/index.ts:205-258 | alone, refused for recovery if and only if one is due; otherwise, unless it dies, done if and only if decidable, and then every deleted path is missing, every written one holds its content, every append is in its store, and whatever no effect concerns is as before; a bound on the lives it needs |
| EventLog.ParsedText | packages/runtime/src/domain/events/parse.ts:84-105 | what is parsed prints back to the text that was read |
| EventLog.ParseAppended | packages/runtime/src/domain/events/parse.ts:84-105 | a longer log reads as the shorter one first |
| EventLog.TextParsed | packages/runtime/src/domain/events/parse.ts:84-105 | events that read back one by one read back as a log |
| EventLog.ChainExact | packages/runtime/src/domain/events/verify.ts:40-65 | a stream is accepted if and only if its events are numbered from one and each names the hash of the one before and its own |
| EventLog.ReplayExact | packages/runtime/src/domain/events/reduce.ts:432-487 | a snapshot is made if and only if the stream is linked, from the state that its reducers end in, at its last revision and hash |
| EventStores.PreparedFromAgreement | packages/runtime/src/composition/events.ts:153-277 | an append is prepared only where log and snapshot agree |
| EventStores.PreparationExact | packages/runtime/src/composition/events.ts:153-277 | an append is prepared if and only if log and snapshot agree, the revisions follow on, and the services accept the extended log |
| EventStores.LawfulServices | packages/runtime/src/composition/events.ts:153-277 | the laws asked of the services can be kept, and then a first append is prepared |
| EventStores.PreparedExtends | packages/runtime/src/composition/events.ts:241-272 | the prepared log is the old log and the line of the caller's whole draft, sealed with the hash of the last event, and the prepared snapshot is that of its replay; where both texts arrive, the store holds the old log and that event |
| EventStores.PlanKeepsAgreement | packages/runtime/src/composition/events.ts:153-277 | a whole plan, decided on any tree, keeps agreement on every tree that meets its expectations |
| EventStores.HistoryKeepsAgreement | packages/runtime/src/composition/index.ts:287-372 | over any history log and snapshot agree, and earlier logs are whole-event prefixes of later ones |
| EventStores.DecidedAppends | packages/runtime/src/composition/index.ts:967-991 | a plan that leads to the prepared texts is an append of one event |
| EventStores.EventSession | packages/runtime/src/composition/index.ts:287-372 | agreement after every script of executions, crashes and recoveries |
| LockSafety.PutKeeps | packages/runtime/src/composition/locks.ts:2421-2508 | which replacements of a published generation keep the protocol's order |
| LockSafety.CleaningKeeps | packages/runtime/src/composition/locks.ts:2421-2508 | every step of an admission helper, from any point, keeps the order and what others rely on |
| LockSafety.ResolvingKeeps | packages/runtime/src/composition/locks.ts:2331-2419 | the same for recovery before an election |
| LockSafety.RetiringKeeps | packages/runtime/src/composition/locks.ts:2510-2539 | the same for an owner that retires its record |
| LockSafety.ReleasingKeeps | packages/runtime/src/composition/locks.ts:2838-2915 | the same for releasing and recovering a scope's claim |
| LockSafety.HelpingKeeps | packages/runtime/src/composition/locks.ts:2146-2244 | the same for a helper of a scope's cleanup |
| LockSafety.ReclaimingKeeps | packages/runtime/src/composition/locks.ts:2090-2133 | the same for the reclaimer of a candidate |
| LockSafety.PublishingKeeps | packages/runtime/src/composition/locks.ts:2764-2800 | the same for an acquirer |
| LockSafety.KnowsStable | packages/runtime/src/composition/locks.ts:1871-1875 | what one worker relies on survives every step of the others |
| LockSafety.StepKeeps | packages/runtime/src/composition/locks.ts:2563-2707 | no step, crash or passage of time breaks the invariant |
| LockSafety.RunIsSafe | packages/runtime/src/composition/locks.ts:2563-2707 | the invariant holds in every state of every interleaving |
| LockGuarantees.StageStep | packages/runtime/src/composition/locks.ts:2421-2508 | one step moves a retirement by at most one stage, and forward |
| LockGuarantees.ForwardOnly | packages/runtime/src/composition/locks.ts:2421-2508 | record, both, tombstone, neither: over a whole run never back |
| LockGuarantees.RecordLeavesBehindGuard | packages/runtime/src/composition/locks.ts:2445-2475 | a record goes only while the tombstone or marker of the same claim stands, only if the claim was let go or expired five seconds ago, and never returns |
| LockGuarantees.ActTouchesOnlyTarget | packages/runtime/src/composition/locks.ts:1871-1922 | a step leaves every other claim alone and removes the claim directory only when it is empty |
| LockGuarantees.PublishedComplete | packages/runtime/src/composition/locks.ts:2764-2800 | a claim appears only complete, by its owner's rename, where there was no claim directory |
| LockGuarantees.ConsumedOnce | packages/runtime/src/composition/locks.ts:2090-2106 | a candidate is moved by at most one rename, to the claim or to quarantine |
| LockGuarantees.AtMostOneGeneration | packages/runtime/src/composition/locks.ts:1130-1187 | at most one generation is published, and it holds the record its name digests |
| LockGuarantees.ClaimStands | packages/runtime/src/composition/locks.ts:2737-2816 | a claim whose owner has not let it go stands alone and intact until five seconds after its expiry |
| LockGuarantees.MutualExclusion | packages/runtime/src/composition/locks.ts:2737-2816 | no two workers hold the lock at once, unless one claim has been let go or expired five seconds ago |
| LockGuarantees.LetGoByOwner | packages/runtime/src/composition/locks.ts:2838-2915 | only the worker that holds a claim lets it go |
| LockGuarantees.ReclaimedAfterExpiry | packages/runtime/src/composition/locks.ts:2080-2088 | a candidate can be taken away if and only if it expired five seconds ago |
| LockProgress.ResolverClears | packages/runtime/src/composition/locks.ts:2331-2508 | from every state of a retirement that has begun, or whose claim expired five seconds ago, one worker alone clears the claim |
| LockProgress.NoStuckAdmission | packages/runtime/src/composition/locks.ts:2331-2508 | in every reachable state it clears a claim whose end has begun or that expired five seconds ago, and leaves any other as it was |
| LockProgress.EmptyClaimClears | packages/runtime/src/composition/locks.ts:2375-2395 | an emptied claim directory is removed by one worker alone |
| LockLife.PublisherHolds | packages/runtime/src/composition/locks.ts:2764-2800 | undisturbed, a fresh claim is published where there is none, complete, and its owner holds it |
| LockLife.PublisherGivesUp | packages/runtime/src/composition/locks.ts:2764-2816 | where there is a claim already the publisher gives up; an admission candidate is thrown away |
| LockLife.ReclaimerDiscards | packages/runtime/src/composition/locks.ts:2090-2133 | a candidate goes by way of its quarantine, whatever its publisher has left of it |
| LockLife.OwnerRetires | packages/runtime/src/composition/locks.ts:2510-2550 | the owner of an admission claim clears it, whatever helpers have begun |
| LockLife.LoserHelps | packages/runtime/src/composition/locks.ts:2396-2419 | a resolver that loses the election helps the winner to the end |
| LockLife.LateLinkerHelps | packages/runtime/src/composition/locks.ts:2421-2475 | a helper that finds the tombstone linked by another goes on from there |
| LockLife.UnreadableStops | packages/runtime/src/composition/locks.ts:1534-1591 | a record or tombstone that does not say what its name digests stops a resolver, which leaves it |
| LockLife.HelperClears | packages/runtime/src/composition/locks.ts:2146-2244 | a helper clears a scope's claim if and only if its end has begun, and leaves any other |
| LockLife.ReleaseClears | packages/runtime/src/composition/locks.ts:2838-3032 | a scope's claim is cleared by its owner always, and by recovery if and only if its end has begun or it expired five seconds ago |
| PatchText.RustTrimEnd | packages/adapters/src/codex/pre-tool-use.ts:48-52 | the loop removes exactly the trailing whitespace |
| PatchText.TrimEndUnique | packages/adapters/src/codex/pre-tool-use.ts:48-52 | no other text is the line without its trailing whitespace |
| PatchText.RustTrim | packages/adapters/src/codex/pre-tool-use.ts:54-60 | and this one both ends |
| Text.SplitConcat | packages/adapters/src/codex/pre-tool-use.ts:65 | splitting distributes over a line feed |
| PatchParser.RunSound | packages/adapters/src/codex/pre-tool-use.ts:143-220 | whatever is accepted is the print of a well-formed document |
| PatchCompleteness.RunComplete | packages/adapters/src/codex/pre-tool-use.ts:143-220 | every well-formed document is read back from its print |
| PatchCompleteness.PrintInjective | packages/adapters/src/codex/pre-tool-use.ts:143-220 | no two well-formed documents print alike |
| PatchCompleteness.ParsedIsMeaning | packages/adapters/src/codex/pre-tool-use.ts:95-221 | the mutations are those of the grammar, if and only if |
| CodexPatch.ParserState.StartHunk | packages/adapters/src/codex/pre-tool-use.ts:109-141 | a header is handled, refused or left exactly as the grammar goes on |
| CodexPatch.ParserState.ReadUpdateLine | packages/adapters/src/codex/pre-tool-use.ts:157-216 | the flags after a line are those of the document after that line |
| CodexPatch.ParseBody | packages/adapters/src/codex/pre-tool-use.ts:95-221 | the loop returns exactly the meaning of the body |
| CodexPatch.BoundedPatchLines | packages/adapters/src/codex/pre-tool-use.ts:62-88 | the bounds, bare or in a heredoc |
| CodexPatch.ParsePatch | packages/adapters/src/codex/pre-tool-use.ts:95-221 | a command is accepted with these mutations if and only if it means them |
| CodexPatch.HeredocIsTransparent | packages/adapters/src/codex/pre-tool-use.ts:62-88 | wrapping hides nothing and adds nothing |
| CodexPatch.HeredocChangesNothing | packages/adapters/src/codex/pre-tool-use.ts:62-88 | a trimmed bounded patch reads the same with and without a heredoc |
| CodexPatch.PrintedPatchMeans | packages/adapters/src/codex/pre-tool-use.ts:62-221 | every complete list of hunks, printed as a command, means its own mutations and no others |
| PatchSpelling.SpelledOut | packages/adapters/src/codex/pre-tool-use.ts:62-221 | a command that lists additions, deletions, updates and moves, spelled out, is accepted with exactly those mutations in order |
| PatchSpelling.InHeredoc | packages/adapters/src/codex/pre-tool-use.ts:62-88 | it may stand in a heredoc of any of the three spellings |
| Lineage.OrderedIsAcyclic | packages/runtime/src/domain/acceptance/index.ts:33-79 | an order with parents first rules out every cycle |
| Lineage.Walk.Visit | packages/runtime/src/domain/acceptance/index.ts:51-72 | the recursion ends, extends the order, and refuses only for a real cycle or a really missing parent |
| Lineage.IndexDigests | packages/runtime/src/domain/acceptance/index.ts:37-48 | the first badly named artifact is the one reported |
| Lineage.ValidateLineageDag | packages/runtime/src/domain/acceptance/index.ts:33-79 | valid if and only if admissible, with every artifact once and parents first; refusals are true |
| JsonText.QuotePrefixFree | packages/differential/src/compare.ts:68-72 | a quoted string and where it ends can be read back |
| JsonText.NumberPrefixFree | packages/differential/src/compare.ts:75 | so can a number |
| Sorting.SortForgets | packages/differential/src/compare.ts:68-71 | sorting forgets the order of keys |
| JsonTree.CanonicalPrefixFree | packages/differential/src/compare.ts:63-76 | canonical text determines the tree and where its text ends |
| JsonTree.CanonicalForgets | packages/differential/src/compare.ts:63-76 | and does not show the order of fields |
| JsonTree.CanonicalExact | packages/differential/src/compare.ts:63-88 | equal digests if and only if equal trees |
| JsonPointers.UnescapeEscape | packages/differential/src/normalize.ts:5-13 | reading undoes writing, for every segment |
| JsonPointers.DecodeEncode | packages/differential/src/normalize.ts:5-13 | every path is decoded from its pointer, except the one that the reader refuses |
| JsonPointers.EncodeInjective | packages/differential/src/compare.ts:14-16 | different places have different pointers |
| Differ.Output.Collect | packages/differential/src/compare.ts:126-191 | the recursion pushes exactly the specified differences, in order |
| DifferExactness.DifferencesExact | packages/differential/src/compare.ts:126-191 | nothing is found if and only if the trees are the same, also through digests |
| DifferExactness.DifferencesPlaced | packages/differential/src/compare.ts:126-191 | every finding is at a place where the trees differ, and no place is found twice |
| DifferExactness.SideExact | packages/differential/src/compare.ts:193-201 | every pointer decodes to the side and a place that differs |
| DifferExactness.CompareObservations | packages/differential/src/compare.ts:203-224 | a report is equal if and only if both observations are the golden tree; its mismatches are those of the two sides, each as often, in the report's order, and distinct |
| DifferCompleteness.KindExact | packages/differential/src/compare.ts:100-124 | which kind a mismatch is, by its place and by what is there on either side |
| DifferCompleteness.DifferencesComplete | packages/differential/src/compare.ts:126-191 | every deepest place where the trees differ is found, and nothing else |
| DifferCompleteness.SideComplete | packages/differential/src/compare.ts:193-201 | a side of the report names a pointer and a kind if and only if the trees differ at that place, nowhere deeper, and in that way |
| RepositoryScan.ScanLevel | packages/runtime/src/composition/repository.ts:40-67 | one level examines a prefix of its entries, all of them unless the budget runs out |
| RepositoryScan.ObserveRepositoryEvidence | packages/runtime/src/composition/repository.ts:27-75 | at most the budget is examined; truncated if and only if there is more; the files are those of the entries examined |
| RepositoryScan.FilesAreReachable | packages/runtime/src/composition/repository.ts:38-68 | untruncated, exactly the files behind at most the permitted number of directories, none excluded |
| RepositoryScan.TruncatedIsPrefix | packages/runtime/src/composition/repository.ts:38-68 | truncated, a prefix of the unlimited result |
| RepositoryScan.BreadthFirst | packages/runtime/src/composition/repository.ts:38-68 | shallower entries come before deeper ones, those at one depth in the order of names, and no path twice |
| RepositoryScan.ExaminedExactly | packages/runtime/src/composition/repository.ts:38-68 | an entry is examined if and only if at most four directories lead to it, none of them excluded |
| CriteriaPolicy.CompareCriteriaSnapshot | packages/runtime/src/domain/acceptance-criteria/policy.ts:36-93 | accepted if and only if every frozen criterion stands where it was, every box says whether the latest outcome passed, and nothing is appended outside acceptance; a refusal names the first reason and a criterion it applies to |
| CriteriaPolicy.AppendOnly | packages/runtime/src/domain/acceptance-criteria/policy.ts:36-93 | over every run each frozen list is a prefix of all later ones and grows only in acceptance |
| CriteriaPolicy.DecideAcceptanceVerdict | packages/runtime/src/domain/acceptance-criteria/policy.ts:141-217 | accepted if and only if reports and declarations match one for one, evidence is listed and valid, and the global verdict is "all passed"; a refusal names the first bad report, or the first criterion that a report or its evidence is wanting for, or the criterion that a wrong global verdict is put down to, with the reason |
| CriteriaPolicy.EvidenceForExact | packages/runtime/src/domain/acceptance-criteria/policy.ts:141-217 | the evidence of a reference is the last item listed under it |
| CriteriaLines.ReadAgrees | packages/runtime/src/domain/acceptance-criteria/parser.ts:11-77 | ticking boxes changes nothing else that the parser reads in a line |
| CriteriaLines.DeclarationAgrees | packages/runtime/src/domain/acceptance-criteria/parser.ts:80-95 | a declaration stays the same but for its tick |
| CriteriaDocument.InspectTaskDocument | packages/runtime/src/domain/acceptance-criteria/parser.ts:18-126 | the loop over lines computes the observation that the line-by-line specification gives |
| CriteriaReading.ValidDocument | packages/runtime/src/domain/acceptance-criteria/parser.ts:18-126 | a document reads as valid with these declarations if and only if every task heading stands in the unit that it names, and the declarations are all that stands where criteria do: at most 126, in order, with distinct identifiers that agree with the nearest unit, task and section, and the tick and text of their lines |
| CriteriaWriting.WellBuiltIsValid | packages/runtime/src/domain/acceptance-criteria/parser.ts:11-126 | a document with headings and criteria in their places, and prose anywhere, reads as valid with the criteria that were written and no others |
| CriteriaDocument.RenderCriterionCheckboxes | packages/runtime/src/domain/acceptance-criteria/parser.ts:129-160 | which documents and outcomes are refused, if and only if |
| CriteriaDocument.RenderAltersOnlyTicks | packages/runtime/src/domain/acceptance-criteria/parser.ts:145-159 | every changed character is the box of a criterion-shaped line with an outcome, and says that outcome; the length stays |
| CriteriaDocument.SplitRendered | packages/runtime/src/domain/acceptance-criteria/parser.ts:30-159 | the lines of the rendered text are the rendered lines |
| CriteriaDocument.RenderThenInspect | packages/runtime/src/domain/acceptance-criteria/parser.ts:17-160 | the rendered text reads as the same declarations in the same order, ticked as the outcomes say |
| CriteriaDocument.RenderIsIdempotent | packages/runtime/src/domain/acceptance-criteria/parser.ts:129-160 | rendering twice is rendering once |
| Normalizer.NormalizeObservation | packages/differential/src/normalize.ts:168-228 | the rules apply one after the other, each as `NormalizerRules.RuleExact` says, or the first that throws ends it |
| NormalizerRules.RuleExact | packages/differential/src/normalize.ts:168-228 | a rule at a place that is there applies if and only if the place is not protected and of the right kind; every occurrence is then replaced, a list sorted by identity, a field removed, a value replaced, and bytes and digest describe the new content; in an artifact that is not valid it changes nothing |
| NormalizerRules.ProtectedExact | packages/differential/src/normalize.ts:37-66 | protection by spelling is protection by name |
| Normalizer.EditKeeps | packages/differential/src/normalize.ts:68-151 | an edit leaves alone every place that parts from its path, but for the two fields beside a content |
| Normalizer.PlainIsWritten | packages/differential/src/normalize.ts:5-13 | a segment that decodes to a plain name is written like it, so protection by spelling is protection by place |
| Normalizer.FramedPart | packages/differential/src/normalize.ts:37-66 | the path of every accepted rule whose pointer does not stray parts from every place of a decision |
| Normalizer.NormalizationFrame | packages/differential/src/normalize.ts:168-228 | no accepted list of rules, none of which strays, changes the file system, Git, the process outcome, or an artifact's identity, state or decision fields |
| Normalizer.PointerKeepsFrame | packages/differential/src/normalize.ts:37-66 | every accepted rule with a pointer keeps every decision of every observation if and only if the pointer does not go by index through a decision and on past a line break |
| Normalizer.StrayingBreaksFrame | packages/differential/src/normalize.ts:53-65 | for every such pointer some observation has a decision that a replacement rule changes |
| Normalizer.LineBreakEscapes | packages/differential/src/normalize.ts:53-65 | for instance the pointer to a name with a line break below a status, as it is written |

## Left out

- Transactions: real bytes, fsync and power loss; `updatedAt`; the `planDigest` field; the managed-path policy; `rootMode: "initialize"`; evidence lists and the early exit that collects them.
- Transactions: an input or output error is treated like a crash at that point, except that of publishing itself, so `classifyDriverFailure`'s clean-up of an unmarked directory and its answer when inspection itself fails are not modelled; the re-reading of a just-written payload always succeeds.
- Transactions: recovery of a transaction that was already settled, and files of unknown name in the staging directory, which the manager itself never writes.
- Transactions: a directory that was never marked makes recovery itself report corruption until the next preflight removes it; `Sessions.MakeCall` recovers only marked ones.
- NormalizeManagedMutationPlan: observations are one consistent look at the tree; preconditions on single effects, `assert_file` guards and previews are not modelled.
- ApplyPlan: stated for a project nobody else writes to; what happens otherwise is the business of `Sessions.ExecuteManagedMutation`.
- PrepareEventAppend: canonical JSON, schema validation and the size limits are parameters; events keep the fields of the hash chain and one body; the JSON parse of the snapshot is subsumed by its comparison with the replay.
- Locks: reading a record is one step; legacy admission layout and root recovery markers; lease trails; waiting and retrying an election; exclusion between the project and its runs.
- Locks: liveness beyond a lone helper's, and the marker, which may be elected again.
- ValidateLineageDag: the order of visits is any permutation of the artifacts, in place of locale collation by id.
- Differ and Normalizer: keys inherited from a prototype, which the code's `in` test also sees, and the difference between 0 and -0, which the differ reports.
- Differ: `undefined` inside records, non-integer numbers, lone surrogates, object identity, and the summaries of values, which do not bear on which pointers are reported.
- CanonicalForgets: two different keys that the sorting locale holds to be equal, which the code leaves in insertion order.
- NormalizationFrame: rules act on values, where the code changes a clone in place; decision fields nested deeper than directly below an artifact's value, which an accepted rule on a field above them may remove; pointers that stray, for which `Normalizer.PointerKeepsFrame` shows that it fails.
- InspectTaskDocument: surrogate pairs in an identifier count as one character.
- ObserveRepositoryEvidence: the tree does not change during the scan and has no links back into itself; paths are sequences of names.
- Building snapshots and verdict documents, and finding a legacy baseline.
- Command dispatch, human rendering, other host adapters, generated contract types, configuration and memory migration.
