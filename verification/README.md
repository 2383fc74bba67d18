# Verification of the exercise, data and delegation core

A Dafny model of eleven core files of this repository, with proofs of what they are for. All claims are
for-all statements over every input, every run or every reachable state.

| component | modules |
|---|---|
| command journal of the EXCON v2 API: a write-ahead log with a tape of generated values, crashes, ambiguous appends and recovery by replay | `JournalCore`, `JournalProtocol`, `JournalEffect`, `JournalEvidence`, `JournalRetry`, `JournalService` |
| record of a v2 run: hash-chained events, eligible lists, receipts, acknowledgements, replay of any past moment | `RunLog`, `RunInvariant`, `RunHistory`, `RunReplay`, `RunPast`, `RunShown`, `RunDisclosure`, `RunService` |
| graph algorithms: bounded shortest path and the current-revision view | `ExplorationPath`, `RelationRevisions` |
| observation reconciliation: exact decimals, Gregorian instants, grouping and classification | `Decimals`, `Instants`, `Reconciliation`, `ReconciliationLaws`, `ReconciliationEntries` |
| delegated credentials: interleaved transactions under row and advisory locks | `DelegationProtocol`, `DelegationSafety`, `DelegationRuns`, `DelegationEffects`, `DelegationProgress`, `DelegationService` |
| source structure parsers: HTML table grid, XML walk | `HtmlTables`, `HtmlTags`, `HtmlGrid`, `XmlWalk` |
| v1 exercise episodes and canonical grouping of relation candidates | `Episodes`, `PlanVerdicts`, `ExerciseService`, `ExerciseOutcomes`, `ExerciseRuns`, `RelationGroups`, `JsonText` |

`Outcomes`, `Order`, `Digits` and `Sequences` are shared helpers. `dafny verify dfyconfig.toml` checks
everything.

## How to read it

- A stateful component has a pure specification (a function of the old state, or a state machine over its
  steps), a class whose methods update fields in place and are proved equal to it, and lemmas about runs of
  the specification. Pure code is functions and lemmas; loops over local maps and sets are methods with
  invariants.
- Where a function of the specification decides an outcome (what shows in a replay, how a group is classified,
  what a commit writes, which cell is placed, why a request is refused), a lemma states that outcome on the
  fields of the inputs, without naming the function.
- Cryptography, generated ids, clocks, text trimming and Unicode composition are parameters: function-valued
  fields (`Crypto`, `Hashing`, `Hashes`, `Platform`, `World`) or arguments. No property of them is assumed
  except where a lemma says so: drawn ids are fresh and have no colon, event ids are distinct where a replay
  finds a source by its id (`PublicationShowsIff`), and the information items of a v1 scenario have distinct
  ids (`ScenarioOk`).
- No hash is assumed to be free of collisions. Where a collision would matter, the exact statement is proved:
  a retry answers the recorded result if and only if the machine still knows the tokens the call names
  (`RetryAnswersIffTokenKnown`), which holds as soon as no two tokens that this journal has issued share a
  digest (`Separated` over `IssuedTokens`, a finite set; `SomeCryptoSeparates` exhibits cryptography that
  separates every token it derives). Drift detection accepts a replay if and only if it arrives at the recorded
  reply or the two outcomes compared collide (`ReplayAcceptedIffSameReply`); two verified logs with the
  same head are the same log if and only if no two events at the same position in them collide
  (`HeadCommitsToLog`).
- The journal runs any deterministic command: a function from the ids, clock readings and lease tokens it
  has been given to its next request. Live execution uses the raw arguments and replay the canonical ones, so
  the protocol requires a service that cannot tell arguments from the same arguments read back from JSON
  (`World.RespectsJson`). The service has this property because a command's arguments are strings and
  bodies parsed by a schema at the edge (`apps/api/src/v2-routes.ts:168-387`), so that an absent field and an
  undefined one are the same and the order of fields is never read; because the cache key is made of string
  arguments; and because the request hash is taken of the canonical form
  (`apps/api/src/v2-in-memory-service.ts:237-252`, `3849-3871`).
- In the delegation model a step is one SQL statement that sees committed rows and its own transaction's
  rows. A statement that must wait simply cannot run yet, and a transaction may abort at any moment, which
  covers deadlocks, failing environment checks and lost connections. The unique indexes of the schema are not
  enforced in the model; `UniqueIndexesHold` proves that the locks alone keep them.
- The replay of a past moment can change in one way only: a join shows in the replays of moments before it.
  `ReachablePastChangesIffShownJoin` is the exact condition, for every reachable run, every
  later history, every query and every past moment: the replay changes if and only if the history holds a join
  that the query shows (to the operator every join, to a role a join into that role, to an agent its own).
  Joins need a forming run, so for a started run the promise holds (`PastNeverChanges`).
- Swapping the two files of a reconciliation mirrors its summary under either conflict policy; only the
  value that a revised group stands for depends on which side may revise.

## Model

| member | source | states |
|---|---|---|
| JournalCore.TapeTheorem | apps/api/src/v2-postgres-journal-service.ts:881-918 | what any deterministic command does live can be repeated on the ids, clock readings and lease count it recorded: same state, same result or rejection, same known tokens, no drift |
| JournalCore.LiveThenReplay | apps/api/src/v2-postgres-journal-service.ts:329-485 | the tape theorem from every intermediate point of an execution, with the tape used exactly as far as it was recorded |
| JournalCore.NoOtherTapeLength | apps/api/src/v2-postgres-journal-service.ts:455-471 | a tape that agrees with another as far as both go, but is shorter or longer, never also replays without drift |
| JournalCore.ReplayAcceptsOnlyRecordings | apps/api/src/v2-postgres-journal-service.ts:455-471 | the converse of the tape theorem: whatever replays without drift is exactly what some live execution did and recorded |
| JournalCore.LiveRecordsLegalValues | apps/api/src/v2-postgres-journal-service.ts:368-404 | what a live execution records is within the limits that are checked when the journal is read back |
| JournalCore.ReplayOnlyLearns | apps/api/src/v2-postgres-journal-service.ts:406-422 | replay files every token under its own digest, knows only tokens it knew or the tape issued, and forgets none unless two of these share a digest |
| JournalCore.UnsealSeal | apps/api/src/v2-postgres-journal-service.ts:510-555 | what seals under some known tokens unseals under the same tokens to the JSON form of the original arguments |
| JournalCore.SealHidesTheToken | apps/api/src/v2-postgres-journal-service.ts:510-533 | a sealed lease argument holds the digest of exactly that token in place of the token, and every other argument and field is the JSON form of the original |
| JournalCore.JsonFormIdempotent | apps/api/src/v2-postgres-journal-service.ts:213-222 | canonicalizing a value a second time changes nothing |
| JournalCore.JsonArgumentsIdempotent | apps/api/src/v2-postgres-journal-service.ts:504-508 | copying arguments a second time changes nothing |
| JournalProtocol.LiveRowReplays | apps/api/src/v2-postgres-journal-service.ts:822-918 | a live execution, journaled with what it recorded, replays on the same machine to the same reply and the same next machine, although live execution sees the raw arguments and replay the canonical ones |
| JournalProtocol.MutateKeepsSound | apps/api/src/v2-postgres-journal-service.ts:822-879 | a mutation keeps the journal sound at every one of its exits: refused arguments, failed or ambiguous intent append, failed execution, failed or ambiguous outcome append, rejection, success |
| JournalProtocol.RecoverFromIsSound | apps/api/src/v2-postgres-journal-service.ts:943-988 | recovery from any row on, with completed rows replayed and a row without outcome executed again, leads to sound rows and to the machine those rows rebuild |
| JournalProtocol.RecoveryOfSoundRows | apps/api/src/v2-postgres-journal-service.ts:930-988 | recovery of the rows of any run succeeds if and only if there is no unfinished intent or executing it finishes and its outcome is stored; it never reports drift, corruption or an unknown secret |
| JournalProtocol.NextKeepsSound | apps/api/src/v2-postgres-journal-service.ts:815-988 | every step of the protocol (mutation, query, crash, restart) keeps the invariant, only lets rows grow, and forgets no answer |
| JournalProtocol.RunKeepsSound | apps/api/src/v2-postgres-journal-service.ts:815-988 | the same for every run: at most the last intent lacks an outcome, the rows replay to the live machine, and every answer given is confirmed by the journal |
| JournalProtocol.EmptyIsSound | apps/api/src/v2-postgres-journal-service.ts:943-988 | an empty journal is a sound start |
| JournalProtocol.AnswersSurvive | apps/api/src/v2-postgres-journal-service.ts:815-988 | no result already returned to a caller is lost or changed by anything that happens later: replaying the journal yields it at the same row for the same call |
| JournalProtocol.SecretsUnsealAtEveryRow | apps/api/src/v2-postgres-journal-service.ts:954-968 | in every reachable state each row, answered or not, belongs to a submitted call, and its secrets unseal under the tokens that replaying the rows before it rebuilds and give back the arguments of that call |
| JournalEffect.MutationServes | apps/api/src/v2-in-memory-service.ts:3849-3871 | a mutation on a ready process under a new key runs the operation of the service on the state of the service: its answer is the answer, its state and tokens are the next state and tokens (a rejected command keeps its partial effects), exactly a success is remembered under exactly this key, and a failure stops the process; a used key answers from its record or with IDEMPOTENCY_CONFLICT and changes nothing |
| JournalEffect.ReplayServes | apps/api/src/v2-postgres-journal-service.ts:943-988 | replaying a row serves its call in the same sense, with exactly the values on the row |
| JournalEffect.RebuiltIsHistory | apps/api/src/v2-postgres-journal-service.ts:943-988 | the machine rebuilt from any rows is what serving their calls one after the other makes of the empty service |
| JournalEffect.ServiceIsItsHistory | apps/api/src/v2-postgres-journal-service.ts:815-988 | exactly once and in order: in every reachable ready state the service is what serving every journaled call once, in row order, makes of the empty service, and every answer given is the reply of its row |
| JournalEvidence.IntentsAreTamperEvident | apps/api/src/v2-postgres-journal-service.ts:578-605 | two intents that are read with the same hash say the same (id, command, version, principal, arguments, key) or collide under the hash; intents that say the same have the same hash |
| JournalEvidence.EnvelopeBindsIntent | apps/api/src/v2-postgres-journal-service.ts:578-605 | the hashed JSON of two intents is equal exactly when they say the same |
| JournalEvidence.OutcomeBindsGenerated | apps/api/src/v2-postgres-journal-service.ts:607-624 | the hashed JSON of an outcome determines every generated value |
| JournalEvidence.UnreadableRowsStopRecovery | apps/api/src/v2-postgres-journal-service.ts:631-700 | one row with a wrong hash, command, version, id, key id or outcome, wherever it is, and recovery reports corruption and replays nothing |
| JournalEvidence.UuidByPosition | apps/api/src/v2-postgres-journal-service.ts:15-16 | an intent id is a UUID, character by character |
| JournalEvidence.KeyIdByPosition | apps/api/src/v2-postgres-journal-service.ts:14 | a lease key id has 3 to 64 of the allowed characters, the first a letter or a digit |
| JournalEvidence.HashByPosition | apps/api/src/v2-postgres-journal-service.ts:13 | a hash is the function name and 64 lower-case hexadecimal digits |
| JournalEvidence.ReferencesByField | apps/api/src/v2-postgres-journal-service.ts:487-502 | a value stands for a lease token exactly if it holds a reference of that kind with a hash |
| JournalEvidence.LiveEnds | apps/api/src/v2-postgres-journal-service.ts:566-576 | an execution ends with the result the command returned, with the error it threw (the error of the service as it is, a domain error under its code or as a failed validation), or fails because of an unknown error, too many requests or an unusable value |
| JournalRetry.AnswerIsCached | apps/api/src/v2-in-memory-service.ts:3849-3871 | the machine that a journal rebuilds holds the idempotency record of every success the journal confirms |
| JournalRetry.IssuedTokensAre | apps/api/src/v2-postgres-journal-service.ts:406-422 | the tokens a journal has issued are exactly those of the lease counters on its completed rows |
| JournalRetry.AnswerCanBeSealed | apps/api/src/v2-postgres-journal-service.ts:510-533 | the arguments of an answered call can be sealed again if no two issued tokens share a digest; otherwise the only refusal is an unknown secret |
| JournalRetry.RetryAnswersIffTokenKnown | apps/api/src/v2-in-memory-service.ts:3849-3871 | a command whose success a caller has seen, repeated with its key after any run of crashes and restarts, answers the recorded result and has no second effect if the machine knows the tokens it names, and otherwise is refused without any effect |
| JournalRetry.RetryAnswersTheRecordedResult | apps/api/src/v2-in-memory-service.ts:3849-3871 | when no two tokens issued by this journal share a digest, a command whose success a caller has seen, repeated with its key after any number of crashes, answers the recorded result, changes neither the service nor the known tokens, and generates nothing |
| JournalRetry.SomeCryptoSeparates | apps/api/src/v2-postgres-journal-service.ts:406-422 | there is cryptography under which no two derived lease tokens share a digest, and tokens of different counters differ |
| JournalRetry.ReplayAcceptedIffSameReply | apps/api/src/v2-postgres-journal-service.ts:974-986 | drift detection: whatever code replays a row to its end, recovery accepts it if and only if it arrives at the recorded reply, status and error code, or these two outcomes collide under the digest |
| JournalService.GenerationTape.IdFactory | apps/api/src/v2-postgres-journal-service.ts:368-385 | one generated id: taken from the tape or recorded on it, with the limits and the drift error of the code |
| JournalService.GenerationTape.Now | apps/api/src/v2-postgres-journal-service.ts:387-404 | one clock reading, recorded or replayed |
| JournalService.GenerationTape.LeaseTokenFactory | apps/api/src/v2-postgres-journal-service.ts:406-422 | one lease token, derived from the intent and its counter and filed under its digest |
| JournalService.GenerationTape.Finish | apps/api/src/v2-postgres-journal-service.ts:455-471 | a replay that has not used its tape exactly is reported as drift |
| JournalService.V2JournalRuntime.Invoke | apps/api/src/v2-postgres-journal-service.ts:920-928 | running a command through the tape arrives at the outcome of the pure execution, live or replayed |
| JournalService.V2JournalRuntime.Execute | apps/api/src/v2-postgres-journal-service.ts:881-918 | one execution, live or on a recorded tape, equals the specified one |
| JournalService.V2JournalRuntime.Mutate | apps/api/src/v2-postgres-journal-service.ts:822-879 | the imperative mutation is exactly one mutation step of the protocol, whatever the appends do |
| JournalService.V2JournalRuntime.Recover | apps/api/src/v2-postgres-journal-service.ts:943-988 | the imperative recovery loop is exactly the protocol recovery of all rows |
| JournalService.Create | apps/api/src/v2-postgres-journal-service.ts:930-988 | creating a service is exactly a start step: configuration check, writer lock, recovery |
| RunHistory.ApplyKeeps | apps/api/src/v2-in-memory-service.ts:3232-3337 | every building block of a command keeps the record consistent: chained events, receipts that are the chained image of a prefix of the eligible list, rising acknowledgements, submissions that cite earlier receipts |
| RunHistory.HistoryIsConsistent | apps/api/src/v2-in-memory-service.ts:1061-1178 | the record is consistent after every legal history of commands |
| RunHistory.CreatedIsConsistent | apps/api/src/v2-in-memory-service.ts:696-764 | a new run is consistent |
| RunInvariant.KeyIsInjective | apps/api/src/v2-in-memory-service.ts:3339-3345 | the text key of a resource tells its kind, its id and its version |
| RunInvariant.PendingIsASuffix | apps/api/src/v2-in-memory-service.ts:1061-1178 | filtering the eligible list by the set of issued keys is the same as skipping as many entries as there are receipts |
| RunHistory.ReceiptsAreAPrefix | apps/api/src/v2-in-memory-service.ts:1061-1178 | exactly once and in order: in every reachable state the disclosures an agent has received are a prefix of its eligible list, each once |
| RunHistory.SyncDelivers | apps/api/src/v2-in-memory-service.ts:1061-1178 | one synchronisation delivers the next entries in order, as many as allowed or as there are, and reports more exactly when some remain |
| RunHistory.DrainDeliversAll | apps/api/src/v2-in-memory-service.ts:1061-1178 | k synchronisations of size m deliver exactly min(n, k times m) of n pending entries |
| RunHistory.VerifyEventChain | apps/api/src/v2-in-memory-service.ts:3569-3579 | the verifier loop accepts exactly the logs whose previous hashes link up and whose hashes are right |
| RunHistory.VerifyReceiptChains | apps/api/src/v2-in-memory-service.ts:3581-3613 | the verifier accepts exactly the receipts that, grouped by agent and sorted, number from one and chain |
| RunHistory.EventVerifierAccepts | apps/api/src/v2-in-memory-service.ts:3569-3579 | the event verifier accepts every cut of every consistent run |
| RunHistory.ReceiptVerifierAccepts | apps/api/src/v2-in-memory-service.ts:3581-3613 | the receipt verifier accepts every cut of every consistent run, over all its agents together |
| RunHistory.IssuedAtIsPrefix | apps/api/src/v2-in-memory-service.ts:2077-2202 | receipts filtered by issued sequence are a prefix of the agent's receipts at every cut |
| RunHistory.HeadCommitsToLog | apps/api/src/v2-in-memory-service.ts:3305-3337 | two verified logs of the same length with the same head hash are the same log if and only if no two events at the same position in them collide |
| RunHistory.OrderOfEvidence | apps/api/src/v2-in-memory-service.ts:3264-3303 | source comes before issue and issue before acknowledgement, and acknowledgements strictly increase |
| RunHistory.SubmissionsCiteEarlierReceipts | apps/api/src/v2-in-memory-service.ts:2767-2803 | every receipt a submission cites was issued to its author before the submission |
| RunReplay.ReplayTasks | apps/api/src/v2-in-memory-service.ts:3365-3421 | the loop gathers, for every task of a visible agent, the first among its latest snapshots, and lists exactly these by creation and id |
| RunReplay.ListedIsInOrder | apps/api/src/v2-in-memory-service.ts:3365-3421 | the listing holds the same tasks and no task after one that comes later |
| RunReplay.LatestIsLatest | apps/api/src/v2-in-memory-service.ts:3365-3421 | a replayed task is one of the snapshots and no visible snapshot of it is later |
| RunShown.ShownRun | apps/api/src/v2-in-memory-service.ts:2162-2176 | a replay describes the started run exactly if the run had started by the cut, and its chain head is that of the last event by the cut |
| RunShown.ShownAgents | apps/api/src/v2-in-memory-service.ts:2091-2100 | the agents and role assignments shown are exactly the watched ones that had joined by the cut, in order |
| RunShown.ShownReceipts | apps/api/src/v2-in-memory-service.ts:2101-2121 | the receipts shown are exactly those of watched agents issued by the cut and, where asked for, covered by an acknowledgement made by the cut |
| RunShown.ShownEvents | apps/api/src/v2-in-memory-service.ts:3423-3524 | the operator sees exactly the log up to the cut; an agent or role sees, in order, the events of the run and its own, publications that a shown receipt discloses or that it made itself, feedback about itself, and never an evaluation or a barrier |
| RunShown.ShownTasks | apps/api/src/v2-in-memory-service.ts:3365-3421 | a task shown is the latest snapshot offered (operator) or received (others) by the cut; every task of a watched agent with such a snapshot is shown once, ordered by creation and id |
| RunShown.ShownEligible | apps/api/src/v2-in-memory-service.ts:2128-2160 | exactly a query for eligible resources shows what watched agents were offered by the cut, each with the number of its first receipt by the cut |
| RunShown.VerifiedMeansIntact | apps/api/src/v2-in-memory-service.ts:3569-3613 | a replay marked as verified has an intact event chain and intact receipt chains, whatever run it is of |
| RunDisclosure.PublicationOffers | apps/api/src/v2-in-memory-service.ts:3232-3262 | a publication appends one numbered, stamped and chained event and offers its resource, under the kind, id and version of the resource, to exactly its recipients |
| RunDisclosure.CreatedIsSourced | apps/api/src/v2-in-memory-service.ts:696-764 | a new run has offered nothing |
| RunDisclosure.HistoryKeepsSourced | apps/api/src/v2-in-memory-service.ts:3232-3262 | in every reachable state everything offered stems from the event it names, and that event is about the offered resource |
| RunDisclosure.OfferedIffRecipient | apps/api/src/v2-in-memory-service.ts:1654-1699 | in every later state an agent has been offered a publication exactly if it was among its recipients |
| RunDisclosure.PublicationShowsIff | apps/api/src/v2-in-memory-service.ts:3423-3524 | in every later state and at every cut a publication shows to an agent exactly if it made it itself or a receipt of it shows; so never to an agent that neither made it nor was a recipient |
| RunPast.ApplyIsLater | apps/api/src/v2-in-memory-service.ts:3305-3337 | every legal command, joins and the start included, only adds what happens later |
| RunPast.EventVisibleStable | apps/api/src/v2-in-memory-service.ts:3423-3524 | whether an old event shows under a perspective cannot change; what shows is stated by RunShown.ShownEvents |
| RunPast.ShownJoinChangesThePast | apps/api/src/v2-in-memory-service.ts:773-877 | a history with a join that the query shows changes the replay of every moment before it |
| RunPast.PastChangesIffShownJoin | apps/api/src/v2-in-memory-service.ts:2077-2202 | for every formed consistent run the replay of a past moment stays the same if and only if no later command is a join that the query shows |
| RunPast.ReachablePastChangesIffShownJoin | apps/api/src/v2-in-memory-service.ts:2077-2202 | the same for every run reachable from its creation, every later history, every perspective, both delivery semantics and every moment reached |
| RunPast.PastNeverChanges | apps/api/src/v2-in-memory-service.ts:2077-2202 | the whole replay of a moment a started run has reached, role assignments and task order included, is the same in every later state |
| RunPast.EveryReplayVerifies | apps/api/src/v2-in-memory-service.ts:2077-2202 | every replay of every reachable state is marked as verified, at every cut |
| RunPast.JoiningChangesTheFormingPast | apps/api/src/v2-in-memory-service.ts:773-877 | a concrete instance: a run, a join and a cut where the replay of the past changes |
| RunService.StoredRun.AppendEvent | apps/api/src/v2-in-memory-service.ts:3305-3337 | appending in place appends exactly the specified chained event |
| RunService.StoredRun.JoinRun | apps/api/src/v2-in-memory-service.ts:773-877 | joining in place is the specified join, refused without effect unless the run is forming and the role is required and free |
| RunService.StoredRun.MakeEligible | apps/api/src/v2-in-memory-service.ts:3232-3262 | making a resource eligible in place extends exactly that agent's list |
| RunService.StoredRun.PublishTo | apps/api/src/v2-in-memory-service.ts:1654-1699 | publishing in place (event, stored resource, eligibility of every recipient) is the specified publication |
| RunService.StoredRun.AcknowledgeReceipts | apps/api/src/v2-in-memory-service.ts:3264-3303 | acknowledging in place is the specified acknowledgement, with its refusals |
| RunService.StoredRun.PendingOf | apps/api/src/v2-in-memory-service.ts:1061-1178 | the filter loop computes the pending entries |
| RunService.StoredRun.SyncAgent | apps/api/src/v2-in-memory-service.ts:1061-1178 | the imperative synchronisation returns the specified batch and leaves the specified record |
| RunService.StoredRun.AssertSubmissionReferences | apps/api/src/v2-in-memory-service.ts:2767-2803 | the reference check holds exactly when every cited receipt and artifact version is one the author was issued |
| ExplorationPath.FindExplorationPath | packages/data-core/src/exploration-path.ts:2-53 | the breadth-first search returns a real shortest walk within the limit, the one with the lexicographically least edge ids when edge ids are unique, and absent when there is none |
| ExplorationPath.FoundIffReachable | packages/data-core/src/exploration-path.ts:19-52 | a path is found exactly when a directed walk of at most maxDepth edges exists (the empty walk is always short enough) |
| ExplorationPath.AnswerIsIndependentOfInputOrder | packages/data-core/src/exploration-path.ts:21-28 | with unique edge ids the answer does not depend on the order or multiplicity in which nodes and edges are listed |
| ExplorationPath.EveryWalkIsCovered | packages/data-core/src/exploration-path.ts:33-51 | the search invariant at work: along every walk short enough, its end was reached by a walk no later in the order, or some queued node precedes part of it |
| ExplorationPath.HeadIsBest | packages/data-core/src/exploration-path.ts:33-40 | the node at the head of the queue was reached by the best walk to it |
| ExplorationPath.ExhaustedMeansAbsent | packages/data-core/src/exploration-path.ts:52 | when the queue is exhausted no short enough walk leads to the target |
| RelationRevisions.SelectRelationRevisions | packages/data-core/src/business-query.ts:104-152 | the view keeps, in order, exactly the rows that no row outside every cycle supersedes, and counts hidden rows and branches; with distinct ids, stated on the rows: a row is kept exactly if no other row revises it off every circle of revisions, and the branches are the rows with more than one revision |
| RelationRevisions.FindCycles | packages/data-core/src/business-query.ts:128-140 | the marked set is exactly the nodes that lie on a cycle of the supersedes links |
| RelationRevisions.CountSuccessors | packages/data-core/src/business-query.ts:141-144 | each count is the number of rows that supersede the id outside every cycle |
| RelationRevisions.LinkIsRevision | packages/data-core/src/business-query.ts:113-128 | with distinct ids a link leads exactly from a row to the row it names in its supersedes field, with another id and the same data item, subject, predicate, object and status, approved or pending review |
| RelationRevisions.HiddenIffRevised | packages/data-core/src/business-query.ts:104-152 | with distinct ids a row is hidden exactly if such a row names it and neither lies on a circle of such references |
| RelationRevisions.HiddenRowIsRevised | packages/data-core/src/business-query.ts:104-152 | even with repeated ids a row is hidden only if some row names and agrees with the row of its id |
| RelationRevisions.CircleIsCycle | packages/data-core/src/business-query.ts:129-140 | a row lies on a cycle of links exactly if references lead from it back to itself |
| RelationRevisions.BranchesAreForks | packages/data-core/src/business-query.ts:141-152 | the branches counted are the rows with more than one revision off every circle |
| RelationRevisions.TrailEndIsCycle | packages/data-core/src/business-query.ts:129-139 | when a trail of links runs back into itself, the part from there on is a cycle |
| RelationRevisions.TrailFromCycleReturnsToStart | packages/data-core/src/business-query.ts:129-139 | a trail from a node on a cycle comes back to that node and to no other |
| RelationRevisions.CyclicRowsStayVisible | packages/data-core/src/business-query.ts:141-145 | rows on a cycle are never hidden |
| RelationRevisions.HiddenRowHasVisibleSuccessor | packages/data-core/src/business-query.ts:141-145 | every hidden row has a visible row that supersedes it directly or through others |
| RelationRevisions.NonEmptyViewOfNonEmptyRows | packages/data-core/src/business-query.ts:145 | a non-empty input never gives an empty view |
| Decimals.CompositionIsRead | packages/data-core/src/reconciliation.ts:14-40 | every text of the decimal grammar is read into its parts |
| Decimals.ReadIsComposition | packages/data-core/src/reconciliation.ts:14-40 | whatever is read is a text of the grammar with exactly those parts |
| Decimals.ReadsExactlyCompositions | packages/data-core/src/reconciliation.ts:14-40 | a text is read if and only if it has at most 128 characters, is in the grammar and its exponent is at most 100 in size; the number read is the one it denotes |
| Decimals.PrintDecimal | packages/data-core/src/reconciliation.ts:41-56 | the printing loop prints the canonical text |
| Decimals.ReadOfPrinted | packages/data-core/src/reconciliation.ts:41-56 | reading a printed text gives the same number back, or nothing when the text is longer than 128 characters |
| Decimals.SameTextIffSameNumber | packages/data-core/src/reconciliation.ts:41-56 | two decimals print the same text if and only if they denote the same number |
| Decimals.ConvertIsExact | packages/data-core/src/reconciliation.ts:57-67 | conversion is exactly value times factor plus offset |
| Decimals.ConvertIsMonotone | packages/data-core/src/reconciliation.ts:57-67 | with a positive factor one value is below another exactly when its conversion is |
| Decimals.ConvertNeverMerges | packages/data-core/src/reconciliation.ts:162-171 | converted values have the same text if and only if the originals have |
| Instants.NextDayCountsOneMore | packages/data-core/src/reconciliation.ts:98-106 | the closed day formula counts one more for the next day across month ends, leap days and centuries |
| Instants.DayNumberCountsDays | packages/data-core/src/reconciliation.ts:98-106 | the closed day formula of a date is n if and only if the date is the n-th successor of 0001-01-01 |
| Instants.DayNumberIsOrder | packages/data-core/src/reconciliation.ts:98-106 | day numbers order dates and identify them |
| Instants.WrittenIsParsed | packages/data-core/src/reconciliation.ts:69-97 | every accepted timestamp is parsed from its text, field by field |
| Instants.ParsedIsWritten | packages/data-core/src/reconciliation.ts:69-97 | whatever is parsed is an accepted timestamp with exactly that text |
| Instants.SameInstantIffSameUtc | packages/data-core/src/reconciliation.ts:98-112 | two accepted timestamps have the same key if and only if they name the same UTC microsecond, and their counts are ordered as the moments are |
| Instants.LegalMeans | packages/data-core/src/reconciliation.ts:69-97 | which timestamps are accepted, field by field: Gregorian dates of the years 1 to 9999, times of day, at most six decimals, offsets up to 14 hours |
| Instants.UtcMeans | packages/data-core/src/reconciliation.ts:91-111 | the moment named is the local date and time of day minus the offset east of UTC |
| Reconciliation.GroupRecords | packages/data-core/src/reconciliation.ts:141-210 | the first pass returns, in order of first appearance, one group for every incomplete record and every signature, with exactly its members |
| Reconciliation.Classify | packages/data-core/src/reconciliation.ts:215-271 | the second pass classifies every complete group and its counters are the declared counts |
| Reconciliation.ReconcileObservations | packages/data-core/src/reconciliation.ts:131-272 | the result is the declarative one: the limit error, the conversion error, or the classified groups and a summary defined from the sets of observed facts |
| ReconciliationLaws.HomeExists | packages/data-core/src/reconciliation.ts:178-210 | every record belongs to some group |
| ReconciliationLaws.ShareGroupIffSameSignature | packages/data-core/src/reconciliation.ts:178-200 | two records are in the same group if and only if they are the same record or are complete with the same signature; so every record is in exactly one group |
| ReconciliationLaws.MembersAreThoseAtHome | packages/data-core/src/reconciliation.ts:201-208 | the members of a group are exactly the records that belong to it, in order |
| ReconciliationLaws.StatusSaysWhatWasObserved | packages/data-core/src/reconciliation.ts:219-245 | UNCHANGED exactly if both sides observed the same single value, LEFT_ONLY and ADDED exactly if one side observed a single value and the other none, REVISED exactly if the right may revise the left and they observed two different single values, CONFLICT otherwise; and the group shows the first record of the deciding side, or none in a conflict |
| ReconciliationLaws.IncompleteStandsAlone | packages/data-core/src/reconciliation.ts:178-208 | a group is INCOMPLETE exactly if its record is, has only that record and no value; every group has its place, its key texts, its measure and its unit |
| ReconciliationLaws.SummarySaysWhatGroupsAre | packages/data-core/src/reconciliation.ts:246-271 | every count of the summary is the number of groups with that status, and the relation of the files follows from these counts |
| ReconciliationLaws.GroupStandsForItsFacts | packages/data-core/src/reconciliation.ts:219-239 | the status of a group depends only on the values of its signature on the two sides, and its value is the only one observed, or the only right one when revised, or none in a conflict |
| ReconciliationEntries.SameKeyIffFieldsAgree | packages/data-core/src/reconciliation.ts:147-157 | two records have the same key exactly if their fields, each from its own side, agree: the same text, the same number in any notation, or the same moment under any offset |
| ReconciliationEntries.KeyIsReadable | packages/data-core/src/reconciliation.ts:147-157 | a key is missing exactly if its field does not read as a text, number or time |
| ReconciliationEntries.EntryTellsTheRecord | packages/data-core/src/reconciliation.ts:158-182 | a record is refused exactly for a number whose unit has a first conversion that is unreadable or not positive; otherwise its entry has the number after that conversion, the unit converted to, and its keys in order |
| ReconciliationEntries.IncompleteMeans | packages/data-core/src/reconciliation.ts:172-178 | an entry is incomplete exactly if a key, the measure, the unit or the number is missing or the record is marked as something else |
| ReconciliationEntries.BindingReads | packages/data-core/src/reconciliation.ts:113-129 | a bound measure or unit is the composed literal or field text, not blank and at most 512 characters |
| ReconciliationLaws.CountsCoverGroups | packages/data-core/src/reconciliation.ts:211-245 | every group is counted under exactly one status |
| ReconciliationLaws.SummaryIgnoresRecordOrder | packages/data-core/src/reconciliation.ts:131-272 | permuting the records within the sides changes neither success nor error nor summary |
| ReconciliationLaws.SwappingSidesMirrorsSummary | packages/data-core/src/reconciliation.ts:131-272 | exchanging the files exchanges LEFT_ONLY and ADDED in the summary and nothing else, for either conflict policy |
| DelegationRuns.NextKeepsSound | packages/platform-auth/src/postgres-platform-delegation-service.ts:858-1116 | every statement, commit and abort of every transaction keeps the invariant over all running transactions |
| DelegationRuns.RunKeepsSound | packages/platform-auth/src/postgres-platform-delegation-service.ts:858-1116 | the invariant holds after every interleaving of transactions |
| DelegationRuns.AtMostOneActive | packages/platform-auth/src/postgres-platform-delegation-service.ts:358-429 | in every reachable state a delegation has at most one unrevoked credential, and none once it is revoked |
| DelegationRuns.RevocationIsForever | packages/platform-auth/src/postgres-platform-delegation-service.ts:431-456 | a revoked delegation stays as it is and never again has an unrevoked credential |
| DelegationRuns.RunEvolves | packages/platform-auth/src/postgres-platform-delegation-service.ts:385-456 | rows are never lost: credentials stay revoked, links stay set, outbox rows stay, delegations change only by revocation |
| DelegationRuns.CommitsDoWhatTheySay | packages/platform-auth/src/postgres-platform-delegation-service.ts:993-1116 | when a command commits, the credential it issued is the only active one of its delegation, the delegation it revoked has none, the credential it revoked is revoked |
| DelegationEffects.CommitsDoExactly | packages/platform-auth/src/postgres-platform-delegation-service.ts:748-1116 | every mutation that commits, in every interleaving, has done exactly what its command says: a creation adds one row with its owner, purpose, delegate and expiry; an issue or rotation was allowed by the locked row, adds one credential with its expiry, revokes every other of the delegation and links the rotated one; a revocation revokes exactly its rows; the reply and the outbox row say so, and nothing else changes |
| DelegationEffects.LockedRowsAreHeldOnce | packages/platform-auth/src/postgres-platform-delegation-service.ts:932-991 | in every interleaving a locked credential row is locked by one transaction and updated by no other |
| DelegationProgress.CreationGoesThrough | packages/platform-auth/src/postgres-platform-delegation-service.ts:748-820 | a creation whose key lock nobody holds and whose id is new runs through every statement, commits, and answers the row with its owner, delegate, purpose and expiry |
| DelegationProgress.IssueGoesThrough | packages/platform-auth/src/postgres-platform-delegation-service.ts:993-1116 | an issue or rotation that the delegation row allows and whose locks nobody holds runs through every statement, commits, and answers the credential with its expiry |
| DelegationProgress.RevocationGoesThrough | packages/platform-auth/src/postgres-platform-delegation-service.ts:858-930 | the same for the revocation of a delegation, with the version it leaves |
| DelegationProgress.CredentialRevocationGoesThrough | packages/platform-auth/src/postgres-platform-delegation-service.ts:932-991 | the same for the revocation of one credential |
| DelegationProgress.RepeatGoesThrough | packages/platform-auth/src/postgres-platform-delegation-service.ts:1193-1216 | a call under a key already answered for the same request gets the stored reply and changes no row |
| DelegationService.RefusalsSayWhy | packages/platform-auth/src/postgres-platform-delegation-service.ts:1218-1232 | a row of another owner does not exist; then a stale version, a dead delegation and another purpose are refused, in this order, each exactly when it applies |
| DelegationService.CredentialRefusalSaysWhy | packages/platform-auth/src/postgres-platform-delegation-service.ts:932-991 | a credential does not exist exactly for anyone but the owner of its delegation |
| DelegationService.UsedKeysAreRefused | packages/platform-auth/src/postgres-platform-delegation-service.ts:1193-1216 | a used key is refused exactly for another request or command, and for the same one exactly if it issues a secret |
| DelegationSafety.LinkRotationRows | packages/platform-auth/src/postgres-platform-delegation-service.ts:422-429 | the rotated credential can always be linked, and linking keeps links injective, within the delegation and from earlier to later |
| DelegationRuns.ChainsAscend | packages/platform-auth/src/postgres-platform-delegation-service.ts:422-429 | following rotation links stays in one delegation and moves strictly later, so no chain closes |
| DelegationRuns.ChainsAreDisjoint | packages/platform-auth/src/postgres-platform-delegation-service.ts:422-429 | two chains that meet are one chain |
| DelegationRuns.RotationsFormChains | packages/platform-auth/src/postgres-platform-delegation-service.ts:1085-1091 | in every reachable state the rotation links form disjoint simple chains in insertion order |
| DelegationRuns.KeysMutateOnce | packages/platform-auth/src/postgres-platform-delegation-service.ts:1193-1216 | each idempotency key causes at most one committed mutation, and has an outbox row exactly when it caused one |
| DelegationRuns.SameKeySameReply | packages/platform-auth/src/postgres-platform-delegation-service.ts:1193-1216 | callers with the same key are told the same reply for the same request hash, however calls interleave |
| DelegationRuns.CredentialsExpireInTime | packages/platform-auth/src/postgres-platform-delegation-service.ts:394-420 | a credential never outlives its delegation |
| DelegationRuns.UniqueIndexesHold | supabase/schemas/02_platform_auth.sql:325-327 | the one-active index and the unique outbox key are never violated, also not by rows still being written: the locks alone ensure them |
| DelegationService.RefusedIffMayNotProceed | packages/platform-auth/src/postgres-platform-delegation-service.ts:1027-1044 | the checks in the order of the code refuse a command exactly when its lock statement may not proceed |
| DelegationService.DelegationStore.Query | packages/platform-auth/src/postgres-platform-delegation-service.ts:1118-1141 | one statement is one step of the protocol, or is refused and changes nothing |
| DelegationService.PlatformDelegationService.ReadReplay | packages/platform-auth/src/postgres-platform-delegation-service.ts:1193-1216 | taking the key lock and reading the stored row: the stored reply, a fresh key, or the refusal of the code |
| DelegationService.PlatformDelegationService.CreateDelegation | packages/platform-auth/src/postgres-platform-delegation-service.ts:748-820 | the call is its statements in order whatever runs between them; it ends rolled back with an explained refusal, with the stored reply of its key, or committed with exactly the row it was asked to create, under the id and the clock it drew |
| DelegationService.PlatformDelegationService.IssueCredential | packages/platform-auth/src/postgres-platform-delegation-service.ts:993-1116 | the same for issuing and rotating, with exactly the effect of the command when it commits, including the refusal to rotate when nothing is active |
| DelegationService.PlatformDelegationService.RevokeDelegation | packages/platform-auth/src/postgres-platform-delegation-service.ts:858-930 | the same for revoking a delegation, with exactly that effect |
| DelegationService.PlatformDelegationService.RevokeCredential | packages/platform-auth/src/postgres-platform-delegation-service.ts:932-991 | the same for revoking one credential, which locks the credential row before its delegation |
| HtmlTables.HtmlTables.Advance | infrastructure/data-foundation/parser/html_content.py:75-76 | the cursor loop stops at the first column that the row has free |
| HtmlTables.HtmlTables.HandleStartTag | infrastructure/data-foundation/parser/html_content.py:24-90 | a start tag changes the state in place exactly as specified |
| HtmlTables.HtmlTables.StartCell | infrastructure/data-foundation/parser/html_content.py:61-88 | a cell is placed and its columns taken, or the table becomes invalid, exactly as specified |
| HtmlTables.HtmlTables.HandleEndTag | infrastructure/data-foundation/parser/html_content.py:92-123 | an end tag changes the state exactly as specified |
| HtmlTables.HtmlTables.HandleData | infrastructure/data-foundation/parser/html_content.py:125-140 | text changes the state exactly as specified |
| HtmlTables.HtmlTableRows | infrastructure/data-foundation/parser/html_content.py:148-157 | the rows of the emitted tables in order, and the warning |
| HtmlTables.SqueezeIsShorter | infrastructure/data-foundation/parser/html_content.py:103-111 | normalising white space never lengthens a text |
| HtmlTables.SqueezeJoinsWords | infrastructure/data-foundation/parser/html_content.py:103-111 | a squeezed text is the words of the text, which are apart by white space only, joined by single spaces |
| HtmlTags.HidingTags | infrastructure/data-foundation/parser/html_content.py:25-28 | scripts, styles and templates hide everything up to their own end, one inside the other |
| HtmlTags.TableTags | infrastructure/data-foundation/parser/html_content.py:29-44 | a table starts a new empty grid, spoiled if it is the 129th or its id is too long; a nested table spoils the outer one |
| HtmlTags.InnerTags | infrastructure/data-foundation/parser/html_content.py:47-60 | what each section, caption, row, cell end and line break does inside a good table, with at most ten thousand rows; every other tag does nothing |
| HtmlTags.OuterTags | infrastructure/data-foundation/parser/html_content.py:45-46 | outside a good table every tag but tables and what hides does nothing |
| HtmlTags.TableEnds | infrastructure/data-foundation/parser/html_content.py:97-107 | the end of the outer table emits it exactly if it is good and nothing is left open, and is a warning otherwise |
| HtmlTags.CellTags | infrastructure/data-foundation/parser/html_content.py:61-88 | a cell is placed exactly if its columns from the first free one on are free and within 256 columns, 10000 rows and 20000 cells; it then takes exactly these columns down to its last row, and is a header exactly under th |
| HtmlTags.WrongCells | infrastructure/data-foundation/parser/html_content.py:61-73 | a cell without a row, inside another cell or with an illegal span spoils the table |
| HtmlTags.TextGoes | infrastructure/data-foundation/parser/html_content.py:125-140 | text goes to the open cell, else to the open caption, else nowhere, and spoils the table exactly beyond a million, 16000 or 4096 characters |
| HtmlTags.EmittedTablesFit | infrastructure/data-foundation/parser/html_content.py:148-157 | every emitted table, row and cell is within the limits, in numbers, and rows are numbered from one |
| HtmlGrid.PlaceNext | infrastructure/data-foundation/parser/html_content.py:74-88 | a cell placed through the column map is at the first free column from the cursor, its whole rectangle is free, and the map stays exact for every row below |
| HtmlGrid.PlacesAreDisjoint | infrastructure/data-foundation/parser/html_content.py:74-88 | the cells of a well placed table occupy pairwise disjoint rectangles |
| HtmlGrid.EmittedTablesAreSound | infrastructure/data-foundation/parser/html_content.py:24-123 | every emitted table of every document is numbered row by row, well placed inside 10000 by 256, and within the limits for tables, ids, captions and cells |
| HtmlGrid.FedIsBounded | infrastructure/data-foundation/parser/html_content.py:81-84 | all emitted tables together hold at most 20000 cells and a million characters |
| HtmlGrid.NoWarningIffAllEmitted | infrastructure/data-foundation/parser/html_content.py:97-107 | there is no warning if and only if every visible top-level table was emitted, numbered in document order |
| XmlWalk.ChildNodes | infrastructure/data-foundation/parser/xml_content.py:23-26 | children are numbered among siblings of their name |
| XmlWalk.XmlContent | infrastructure/data-foundation/parser/xml_content.py:13-27 | the explicit-stack walk terminates and yields exactly the recursive preorder, up to the first element that exceeds a limit, and then its error |
| XmlWalk.PathsResolve | infrastructure/data-foundation/parser/xml_content.py:24-27 | every path leads back to its own element |
| XmlWalk.PathsDiffer | infrastructure/data-foundation/parser/xml_content.py:24-27 | different elements have different paths |
| XmlWalk.EmittedPathsAreAddresses | infrastructure/data-foundation/parser/xml_content.py:14-27 | emitted records have different paths that lead to the elements they describe, and there is no error exactly when every element is emitted |
| XmlWalk.EmittedRecordsTell | infrastructure/data-foundation/parser/xml_content.py:16-27 | an emitted record has the tag, text, attributes and tail of the element that its path leads to |
| XmlWalk.WalkStopsAt | infrastructure/data-foundation/parser/xml_content.py:20-26 | the walk stops at the first element in document order that is deeper than 64, has a name over 512 characters or over a million characters of text, and reports which; all before it are within the limits |
| Episodes.PassMeansFeasible | packages/core/src/index.ts:335-462 | for every plan and any rules: it passes if and only if it has a release, keeps every source limit, the total, the steps and the flow model, gives every target its minimum, gives evidence for every release and cites nothing from the future |
| PlanVerdicts.VerdictMeans | packages/core/src/index.ts:335-462 | pass, partial and fail, told in releases, river flows, sums and counts: fail exactly if one of the four constraints is broken or evidence from the future is cited, pass exactly if in addition every target is met and every release is evidenced, partial otherwise; and compliance is the share of constraints kept |
| PlanVerdicts.ScoreMeans | packages/core/src/index.ts:400-440 | the ecology is the mean supply of the targets, the evidence the share of releases with evidence, and the score 40, 40, 10 and 10 points |
| PlanVerdicts.RiverFlowsDown | packages/core/src/index.ts:347-370 | the flow at each section follows from the releases that enter above it and the share passed on |
| PlanVerdicts.RulesOfStages | apps/api/src/in-memory-service.ts:77-121 | the limits, targets and shares of the two stages, in numbers |
| Episodes.NoViolations | packages/core/src/index.ts:430-435 | observations made by the time of submission never count as time travel |
| ExerciseService.FindReleaseFault | packages/core/src/index.ts:223-247 | the loop over the releases finds the first fault in the order of the code |
| ExerciseService.CollectObserved | packages/core/src/index.ts:177-193 | the set of observed ids grows by each new id once, in order |
| ExerciseService.InMemoryExerciseService.Handle | apps/api/src/in-memory-service.ts:757-779 | every call, cached or not, returns and stores what is specified |
| ExerciseService.InMemoryExerciseService.CreateEpisode | apps/api/src/in-memory-service.ts:303-357 | creating in place is the specified operation |
| ExerciseService.InMemoryExerciseService.ObserveEpisode | apps/api/src/in-memory-service.ts:370-450 | observing in place is the specified operation |
| ExerciseService.InMemoryExerciseService.SubmitPlan | apps/api/src/in-memory-service.ts:461-591 | submitting in place is the specified operation: reopening, queueing, evaluating, publishing |
| ExerciseService.InMemoryExerciseService.AdvanceStored | apps/api/src/in-memory-service.ts:638-700 | advancing or completing in place is the specified operation |
| ExerciseOutcomes.CreateSays | apps/api/src/in-memory-service.ts:303-357 | creating is refused exactly for another scenario or a participant version that is not one of the caller; otherwise the new episode waits at the start of the scenario, unobserved, at version 1, with one event |
| ExerciseOutcomes.ObserveSays | apps/api/src/in-memory-service.ts:370-450 | observing is refused, in the order of the code, for another owner, a stale version, times out of order, an id not yet visible or an episode that does not wait; otherwise exactly the ids asked for are observed and noted once each at the virtual time, the version rises with one event exactly if one of them is new, and the answer holds their observations |
| ExerciseOutcomes.SubmitSays | apps/api/src/in-memory-service.ts:461-591 | submitting is refused, in the order of the code, for another owner, another stage, an episode that cannot take a submission or a revision now, an empty plan, the wrong finality, the first wrong release or a release that does not cite the rules of its stage; otherwise the numbered submission with its evaluation is stored and the episode has feedback, three versions and two events later |
| ExerciseOutcomes.AdvanceSays | apps/api/src/in-memory-service.ts:638-700 | advancing needs the latest plan to have passed and the current version of an episode with feedback; a final plan completes it, another moves it to the next checkpoint, which must exist and lie ahead |
| ExerciseOutcomes.CallSays | apps/api/src/in-memory-service.ts:757-779 | a call under a new key is its operation and exactly a success is remembered; under a used key it is answered from the record or refused, and nothing changes |
| ExerciseOutcomes.KeysDoNotMix | apps/api/src/in-memory-service.ts:757-765 | with ids without colons, two calls share a record exactly if they have the same participant, kind of command, episode and key |
| ExerciseRuns.OperateKeepsSound | apps/api/src/in-memory-service.ts:303-700 | every operation keeps the invariant over all episodes and submissions |
| ExerciseRuns.SelectionIsReleased | apps/api/src/in-memory-service.ts:385-409 | only information released by the episode's virtual time can be selected |
| ExerciseRuns.ObservedWasReleased | apps/api/src/in-memory-service.ts:370-450 | in every reachable state whatever an episode has observed was released by its virtual time |
| ExerciseRuns.NoTimeTravel | packages/core/src/index.ts:430-435 | no evaluation of any run counts a time-travel violation |
| ExerciseRuns.SubmissionsFormOneChain | apps/api/src/in-memory-service.ts:534-556 | the submissions of an episode form one chain: each number below the next is taken exactly once and each but the first revises the one before |
| ExerciseRuns.CompletedMeansPassed | apps/api/src/in-memory-service.ts:638-700 | a completed episode has a passing stage-1 submission and, as its last, a passing final stage-2 submission |
| ExerciseRuns.NextMovesForward | packages/core/src/index.ts:114-127 | a request leaves an episode as it is or gives it a strictly later version; virtual time, observations and events never go back, and submissions never change |
| ExerciseRuns.FailureChangesNothing | apps/api/src/in-memory-service.ts:757-779 | a request that fails changes nothing |
| ExerciseRuns.RetryChangesNothing | apps/api/src/in-memory-service.ts:757-779 | a request that succeeded, repeated any time later with its key, is given the same response and changes nothing; with a different request the key is refused |
| JsonText.TripleIsInjective | packages/data-core/src/knowledge-relations.ts:39-43 | different identities never have the same JSON text, whatever characters they contain |
| JsonText.EscapeIsPlain | packages/data-core/src/knowledge-relations.ts:39-43 | an escaped character holds no control character, a plain one is itself, and codes are hexadecimal |
| RelationGroups.AssertEntityConsistency | packages/data-core/src/knowledge-relations.ts:7-18 | the check succeeds if and only if entities with the same key are the same |
| RelationGroups.GroupRelationCandidates | packages/data-core/src/knowledge-relations.ts:21-66 | grouping succeeds if and only if every row is well typed, entities and candidates agree and no identity has more than 64 pieces of evidence; it then returns the grouping, sorted, with the sorted union of the evidence |
| RelationGroups.GroupingIgnoresOrder | packages/data-core/src/knowledge-relations.ts:21-66 | rows in another order, or repeated, can be grouped exactly when these can and have the same grouping |
| RelationGroups.GroupingIsIdempotent | packages/data-core/src/knowledge-relations.ts:21-66 | grouping the candidates that grouping returned is possible and returns the same |
| RelationGroups.IdentityNames | packages/data-core/src/knowledge-relations.ts:39-43 | two candidates have the same identity exactly when subject key, predicate and object key are the same |
| RelationGroups.TypedByRelation | packages/data-core/src/knowledge-relations.ts:116-180 | what each registered relation may lead from and to, in which context and with which references: identity match, claims, entities and observations |
| RelationGroups.OtherTypedRelations | packages/data-core/src/knowledge-relations.ts:116-180 | the same for events, citations, derivations, policies and model runs |
| RelationGroups.LegacyRelations | packages/data-core/src/knowledge-relations.ts:116-160 | a relation outside the registry has no references and joins two legacy kinds |

## Left out

- Task leases, barriers, grants and evaluations of the v2 service: a command on a run is the events it appends and the resources it publishes, under the guarantees named in `RunLog.Legal` (fresh ids, unique joined recipients, rising task versions).
- Team-perspective replay and the telemetry overlay, which read current rather than as-of data.
- The fields of a join that the record does not show again (agent version, instance key and its uniqueness, ownership), and the quorum check and first resources at the start of a run.
- Timestamps of the journal, the run record and the v1 service are integers; their ISO text and its parsing are left out there (reconciliation models its timestamps in full).
- JSON numbers are opaque and the entry order of objects is not observable in `JournalCore.Value`; digests are functions of values.
- The journal's promise chain that serialises calls: each call is one atomic step between crashes, with every append a separate point of failure.
- Strings are compared character by character; JavaScript compares UTF-16 code units, which differs only for characters outside the basic plane, and `localeCompare`, which breaks ties between replayed tasks by id, follows the locale.
- Schema validation at the edges, HTTP routes, SQL text and row parsing, audit rows and error messages.
- Delegation: the live authorization query, scope and security-level boundaries and the delegate check are answers of the surroundings; the secret token, its HMAC and the key ring; agent-exchange credentials and delegations without expiry, which other code makes.
- A stale read by a process whose database connection has silently died.
- Reconciliation keys a group by the array of its keys, measure and unit; the code uses the JSON text of that array, which determines it (`JsonText` proves this for arrays of three strings).
- A reconciliation group's memberCount, which is the length of its members, and the contract schema of the result.
- Tokenising HTML and decoding character references; which characters are white space is a parameter, and integer attributes arrive parsed, unreadable or absent.
- Parsing XML, refused entities and DTDs, and the schema record before the first element.
- Relation candidates: label, external id, and qualifiers besides the context are carried as opaque text, and evidence as its JSON text. Which of the last two errors a list with both a conflict and too much evidence gets depends on its order, in the code as in the model.
- v1 service: event ids, wall-clock times, feedback texts, links, rounding of displayed metrics and floating point (flows are real numbers); `listEvents`, `listObservations` and the other queries, which only read.
- `filterRelationRows` and the day and period helpers of the business query, settled by reading.
