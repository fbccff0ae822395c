# A verified model of the memory service

This project models, in Dafny, the parts of a conversational-memory service whose
guarantees only show over whole runs, and proves those guarantees for all inputs and
all runs. `dafny verify dfyconfig.toml` checks everything.

- **The memory lifecycle** (`Memories`, `Reflection`, `Lifecycle`, `Effects`,
  `MemoryStore`). One table of rows with an append-only audit log, changed by capture
  batches, deletes, edits, supersessions, summary write-ups, summary rebuilds and decay
  sweeps. A row's id is its insertion number. Each SQL statement is a function on the
  store; `MemoryStore.Table` is the same thing as an object whose methods run the loops
  of the program and are proved to reach the state those functions give. `Lifecycle` is
  the running system: a delete or edit is two transactions (invalidate, then mutate), a
  reflection pass is two (select, then write), a capture looks a candidate up among the
  removed rows, then among the current ones, and then writes, under a lock that keeps out
  only other captures of its subject; anything else may run in between, and any operation
  may stop half way. Proved about every run: pointers are well formed and
  written once (`Integrity`), a retrievable summary is faithful to its sources
  (`Freshness`, with the exact condition and the runs that break it in `Races`), the
  audit trail balances, exactly when (`Books`, `AuditTrail`), the assistant's own notes
  change nothing (`Provenance`, `Captures`, with the runs that break the last two in
  `CaptureRaces`), no session touches another's rows (`Isolation`), weights stay in range
  (`Weights`), reflection converges (`Convergence`).
- **The circuit breaker** (`Breaker`, `BreakerRuns`). Three scripts run by any number of
  replicas against one shared record and one expiring lock, with stragglers, late probes,
  dead replicas and blind admissions at any moment.
- **The decay sweep** (`Decay`, `Sweep`, `SweepRuns`, `DecayWorker`, `Nights`). The weight
  function over reals with `0.5 ** x` known only by three laws, workers that claim, commit,
  crash and roll back in any interleaving while other transactions lock, change and release
  rows, the drain loop itself, and many nights of it by any number of workers.
- **Merge, rank, compose** (`Ordering`, `Hybrid`, `HybridSearch`, `Ranking`, `Rendering`,
  `Fitting`, `Composer`, `RankedFit`). Candidates normalised and merged in place, a
  total-order sort, and a drop loop over any token counter.
- **The connection pool** (`Pool`). Double-checked creation under interleaved coroutines.

## Where the code does less than its documentation says

- A summary write-up re-checks deletion and consolidation of its sources only
  (`jobs/reflection.py:320-328`) and inserts the summary whatever it finds, so a source
  deleted or reworded after the selection is quoted by a retrievable summary
  (`Races.ErasedThenQuotedLeaks`). Likewise a write-up between the two transactions of a
  delete (`api/memories.py:386-411`) folds the row in again
  (`Races.QuotedThenErasedLeaks`). `Freshness.WriteExact`, `Freshness.DeleteExact` and
  `Freshness.EditExact` give the exact condition at each step, and
  `Freshness.RetrievalIsFaithful` the guarantee for every run in which a write-up finds
  its cluster as it was read (`Freshness.Intact`, checkable before the write).
- The transaction split of reflection is said to be closed by `consolidated_at IS NULL`
  (`graphs/reflection_graph.py:32-35`). The second writer indeed marks nothing, but its
  summary is inserted all the same, without an edge from its sources, so a later delete of
  one does not reach it (`Races.SecondWriteUp`, `Races.QuotedTwiceLeaks`). A table whose
  summaries are faithful is safe against every later delete exactly when all of them can
  be traced (`Freshness.FreshIsExact`).
- A capture's lock is on its subject, a delete's on its memory (`api/memories.py:103-107`),
  and each statement sees what has committed by then, so a delete can commit between two
  statements of a capture. Capture logs a reinforcement whether or not its UPDATE matched
  (`store/memories.py:749-774`), so the trail then counts a write that did not happen:
  `CaptureRaces.ToldErasedReinforcedUnbalances`, and `Books.TrailBalances` says the trail
  balances if and only if that never happened. A row deleted between the two lookups of an
  assistant note is seen by neither, so the note can bring it back:
  `CaptureRaces.ToldErasedRestatedResurrects`, and exactly when in
  `Captures.NoteFarInRuns`.
- An empty claim is said to mean drained (`jobs/claims.py:194`), but a claim skips every
  locked row, whoever locked it. A row that a capture, a delete, an edit or a write-up has
  open at the last claim is left for the next run (`SweepRuns.LockedRowIsMissed`);
  `SweepRuns.SweptExactlyOnce` says exactly which rows are left.
- `retrieve/hybrid.py:109-110` calls both normalisations strictly monotonic. The semantic
  one clamps, so two similarities at or below zero tie: `Hybrid.WeakMatchesTie`, and
  exactly when in `Hybrid.NormalizedOrderExactly`.
- The composer drops on exact scores while ranking sorts on scores rounded to twelve
  places, so what is kept need not be a prefix of the ranking
  (`RankedFit.HiddenTieDropsTheFirst`). It is one for every budget if and only if scores
  that round alike stand in exact order, with the byte-length counter and with any other to
  which every memory costs something (`RankedFit.PrefixExactly`,
  `RankedFit.PrefixExactlyInBytes`, `RankedFit.ComposedPrefixExactly`).

## Model

| member | source | states |
|---|---|---|
| MemoryStore.Table.FindSimilar | store/memories.py:79-171 | returns a most similar live, un-superseded row of the session (or, for tombstones, a removed one), and nothing only when there is none |
| MemoryStore.Table.ReinforceMemory | store/memories.py:248-287 | count up, weight raised and capped, clock refreshed on the one visible live row; otherwise nothing changes and no match is reported |
| MemoryStore.Table.MarkSummaryStale | store/memories.py:310-488 | marks and audits the live, unmarked summary a source was folded into, once, and nothing else; the marked summary leaves retrieval |
| MemoryStore.Table.Supersede | store/memories.py:491-569 | retires exactly the other current occupants of the slot, cascades to their summaries and audits each, in order |
| MemoryStore.Table.Admit | store/memories.py:776-849 | the insert branch: row, supersession of its slot when single-valued, one write entry; reports what it retired |
| MemoryStore.Table.PersistOne | store/memories.py:604-849 | one candidate reaches exactly the state and result of its dedup decision, for whatever nearest rows the queries return |
| MemoryStore.Table.PersistCandidates | store/memories.py:572-852 | a whole batch equals its candidates applied in order, each seeing the earlier ones, with one result each |
| MemoryStore.Table.EnsureOwned | api/memories.py:187-233 | authorises exactly the owner of a live row the connection can see, and answers 403 only on an unfiltered connection, so a filtered one never learns that another subject's row exists |
| MemoryStore.Table.DeleteMemory | api/memories.py:334-438 | a refused delete changes nothing; an accepted one erases only that row, audits it once, leaves no retrievable summary of it, and a second delete is answered 404 |
| MemoryStore.Table.EraseRow | api/memories.py:393-423 | the deleting transaction alone: it matches the live row or answers 404 and logs nothing |
| MemoryStore.Table.PatchMemory | api/memories.py:450-530 | blank text refused first; otherwise trimmed content and new embedding together, audited, with no retrievable summary of the old wording |
| MemoryStore.Table.RewordRow | api/memories.py:509-530 | the editing transaction alone: ownership re-checked, both columns written in one statement or nothing |
| MemoryStore.Table.WriteUp | jobs/reflection.py:331-395 | inserts and audits the summary, claims exactly the still-claimable sources and audits those |
| MemoryStore.Table.RebuildStaleSummaries | jobs/reflection.py:451-540 | retires exactly the batch's summaries that were still live, each once, with one entry per retirement and per freed source |
| MemoryStore.Table.RebuildSummary | jobs/reflection.py:489-532 | one summary: skipped if already retired, otherwise deleted, its current sources freed and everything audited |
| Effects.InsertRows | store/memories.py:776-808 | an insert appends its row, retires exactly its slot's occupants, changes nothing else but staleness of summaries, and every retired row's summary leaves retrieval |
| Effects.CascadeReaches | store/memories.py:528-537 | no summary of a retired row is retrievable once the supersession cascade has run |
| Effects.WriteRows | jobs/reflection.py:320-385 | a write-up appends the summary and gives edges to exactly the live, unconsolidated rows of its cluster |
| Effects.RebuildOneRows | jobs/reflection.py:428-448 | a rebuild deletes the summary and frees exactly its sources that are neither deleted nor superseded |
| Integrity.StepTidy | store/memories.py:491-502 | every step of every operation keeps pointers well formed and slots single, and rewrites no tombstone, pointer or log entry |
| Integrity.RunTidy | jobs/reflection.py:320-328 | after every run each consolidation edge joins a non-summary to a later summary of the same subject and actor that was written from it |
| Integrity.RunEvolves | store/memories.py:491-502 | between any two moments of a run: identity columns fixed, tombstones and supersession pointers written once, counters and log only grow |
| Integrity.OneCurrentValuePerSlot | capture/attributes.py:53-69 | at most one live, un-superseded row per subject, actor and single-valued attribute after every run |
| Integrity.ChainEndsInThePresent | store/memories.py:491-502 | following supersession pointers always ends, strictly later, at a row of the same slot that nothing has replaced |
| Freshness.RetrievalIsFaithful | retrieve/semantic.py:65-83 | after every undisturbed run, each row folded into a summary retrieval can return is live, not superseded and at the version folded in |
| Freshness.DeleteExact | api/memories.py:393-423 | a delete keeps summaries faithful if and only if no retrievable summary quotes the row when it commits |
| Freshness.EditExact | api/memories.py:509-530 | an edit keeps summaries faithful if and only if no retrievable summary quotes the row when it commits |
| Freshness.DeleteFromFaithful | api/memories.py:393-423 | from any faithful table, traceable or not, a delete keeps summaries faithful if and only if no retrievable summary was written from the row |
| Freshness.EditFromFaithful | api/memories.py:509-530 | the same of an edit |
| Freshness.InvalidateCovers | store/memories.py:310-403 | the owner-side invalidation takes the row's summary out of retrieval, whichever actor wrote it, and keeps everything else fresh |
| Freshness.CascadesAgree | store/memories.py:324-335 | on every reachable table the in-transaction cascade marks what the cross-actor one marks, since an edge never crosses actors |
| Freshness.WriteExact | jobs/reflection.py:320-395 | a write-up keeps summaries faithful if and only if every source still says what was read, and traceable if and only if also none joined another summary |
| Freshness.StepGood | graphs/reflection_graph.py:24-70 | every step but a disturbed write-up keeps freshness together with the coverage of pending deletes and edits |
| Freshness.FreshIsExact | api/memories.py:386-423 | a faithful table is fresh if and only if no uninterrupted delete of any row by its owner leaves a summary quoting it |
| Races.LateWriteUp | jobs/reflection.py:320-328 | from every state with a selected row deleted, superseded or reworded since, the write-up leaves an unfaithful summary |
| Races.SecondWriteUp | graphs/reflection_graph.py:32-35 | from every state with a selected row already in another summary, the write-up followed by a whole delete of the row leaves an unfaithful summary |
| Races.QuotedTwiceLeaks | graphs/reflection_graph.py:32-35 | a concrete run of two passes over the same rows and one delete ending so |
| Races.DeleteBeforeWriteUp | jobs/reflection.py:320-328 | from every state with a selection in flight, a delete of one of its rows followed by the write-up leaves a retrievable summary of the deleted row |
| Races.WriteUpBeforeDelete | api/memories.py:386-411 | from every state with a pending delete of a selected row, the write-up followed by the delete does the same |
| Races.ErasedThenQuotedLeaks | jobs/reflection.py:320-328 | a concrete run, with two facts near each other but below the dedup threshold, ending with an unfaithful summary |
| Races.QuotedThenErasedLeaks | api/memories.py:386-411 | the concrete run of the other order |
| Books.TrailBalances | store/memories.py:739-849 | after every run each row's write entries number 1 + reinforcements, its delete, superseded and stale entries one each iff so marked, consolidations minus releases one iff consolidated, edits its version, if and only if no capture reinforced a row deleted since it looked |
| Books.StepBalanced | api/memories.py:393-423 | every step but such a late reinforcement moves every row's accounts exactly as it moves the row; blocked, ignored and lost operations add nothing |
| Books.StepExcess | store/memories.py:749-774 | no step ever makes good a write entry without a write |
| CaptureRaces.ForgottenThenReinforced | store/memories.py:749-774 | from every state with a capture about to reinforce a live row, a delete of the row before the UPDATE unbalances the trail |
| CaptureRaces.ToldErasedReinforcedUnbalances | store/memories.py:749-774 | a concrete run of that kind |
| CaptureRaces.ForgottenThenRestated | store/memories.py:649-704 | from every state with a note looked up among the removed rows only, a delete of a close row before the second lookup lets the note in, close to what was erased |
| CaptureRaces.ToldErasedRestatedResurrects | store/memories.py:649-704 | a concrete run of that kind |
| Captures.UndisturbedIsOneStep | store/memories.py:604-849 | looked up and written with nothing in between, a candidate fares as in one undivided step |
| Captures.RunCaptures | store/memories.py:295-302 | in every run captures in flight are of different subjects, their matches are rows of their own session, and none reinforces for the assistant |
| Captures.NoteSettlesExactly | store/memories.py:649-749 | in every run a note leaves every row as it was, adds at most one row filling no slot, and is far from every earlier row if and only if no close row escaped both its lookups |
| Captures.NoteFarInRuns | store/memories.py:649-749 | in every run a note inserted is far from every earlier row of its session if and only if no close row was removed after the first lookup and before the second, re-embedded after the lookup that concerned it, or inserted since |
| Provenance.NoteFarExactly | store/memories.py:649-704 | the same for any three tables: those the two lookups saw and the one inserted into |
| Provenance.EscapedExactly | store/memories.py:132-144 | a row escapes both lookups exactly by being inserted later, by being re-embedded after the lookup that concerned it, or by being removed between the two; one whose vector stood, only by the last |
| Books.ReinforceExact | store/memories.py:749-774 | reinforcing and logging keeps the trail balanced if and only if the row is still visible and live |
| Books.WriteBalanced | jobs/reflection.py:355-385 | a write-up logs the summary once and each claimed source once |
| Books.RebuildBalanced | jobs/reflection.py:486-532 | a rebuild logs each retirement and each release once |
| AuditTrail.OneRowPerAction | store/audit.py:240-254 | however a transaction's calls are ordered, each declared repeat gets its row and the undeclared ones for a key together at most one, exactly when one comes first |
| AuditTrail.NothingSuppressed | store/audit.py:240-254 | a transaction whose undeclared calls are each the first for their key loses none of them |
| AuditTrail.WriteUpFullyLogged | jobs/reflection.py:355-385 | the guard drops none of a write-up's undeclared rows |
| AuditTrail.Connection.WriteAudit | store/audit.py:193-272 | logs unless the same action on the same memory was already logged in this transaction and no repeat was declared; another transaction's keys are forgotten; without a transaction id the guard is off |
| AuditTrail.Connection.WriteAuditMany | store/audit.py:275-305 | logs exactly the calls the guard lets through, in order, and returns the ids of the audit rows written |
| Provenance.DecisionMeaning | store/memories.py:649-768 | a note is blocked iff a removed row is close; otherwise matched, with a most similar current row, iff one is close and it is not a changed slot value |
| Provenance.InsertTakesSlot | store/memories.py:785-808 | a stored value becomes its slot's only occupant and supersedes nothing outside it |
| Provenance.AssistantBatch | store/memories.py:626-749 | with nothing in between, any batch of assistant notes leaves every row as it was, fills no slot, and adds embedded rows only far from every current or removed row |
| Weights.WeightsBounded | store/memories.py:272-282 | after every run floor <= weight <= peak(reinforcements) <= ceiling, and exactly the peak while nothing was swept |
| Weights.ReinforcedWeight | jobs/decay.py:178-189 | the capture writer's increment and the decay job's peak agree on what a reinforced row is worth |
| Weights.ReinforcementRestarts | store/memories.py:272-282 | a sweep at the moment of a reinforcement gives the row the peak of its new count, which a never-swept row already carries |
| Weights.ReinforcementNeverLowers | jobs/decay.py:178-236 | no later sweep finds a row lighter for having been reinforced |
| Isolation.StepIsolated | store/memories.py:353-354 | every step of a session but the owner-side invalidation changes, adds and logs about that session's rows only |
| Isolation.StepLeavesAlone | store/memories.py:310-322 | a step that does not act for a subject leaves its rows and trail alone, the unfiltered invalidation and sweep included |
| Isolation.SubjectLeftAlone | store/memories.py:338-385 | over any stretch of any run in which nobody acts for a subject, its rows keep every column but the three the sweep owns, and nothing is logged about them |
| Convergence.EdgesHaveDepthOne | jobs/reflection.py:172-185 | in every run an edge leads to a summary that is itself in no summary |
| Convergence.RebuildStaleSet | jobs/reflection.py:418-448 | a rebuild pass retires exactly the stale summaries of its batch |
| Convergence.WriteCandidates | jobs/reflection.py:172-185 | a write-up uses up exactly the candidates it folds and creates none |
| Convergence.PassDecreases | jobs/reflection.py:610-632 | a pass that finds anything decreases (live stale summaries, candidates) lexicographically |
| Convergence.Settle | jobs/reflection.py:569-640 | repeated passes without user activity reach a store in which a pass finds nothing |
| Convergence.SettledIsFixed | jobs/reflection.py:451-540 | there no stale summary is live and a further pass changes nothing |
| Breaker.Redis.Allow | retrieve/breaker.py:230-256 | the ALLOW script: verdict and new state for closed, cooling, half-open with the lock free or taken |
| Breaker.Redis.RecordFailure | retrieve/breaker.py:263-289 | the FAILURE script: reopen on a probe or while half-open with the count raised to the threshold, open at the threshold, free the lock |
| Breaker.Redis.RecordSuccess | retrieve/breaker.py:312-326 | the SUCCESS script: closes only for a probe or while closed, and otherwise leaves record and lock alone |
| Breaker.GuardedSearch | retrieve/guarded.py:169-260 | a blocked call touches nothing further, each outcome is recorded once with its probe flag, also after a blind admission, cancellation is never counted, candidates come back exactly on success and otherwise the reason (open circuit, timeout, error or every path degraded); with the record out of reach afterwards nothing is recorded and the circuit is reported closed |
| BreakerRuns.StepSane | retrieve/breaker.py:230-326 | every step by any replica keeps: lock held iff half-open, open only since the last probe or later, counter consistent, probes spaced |
| BreakerRuns.ProbesAreSpaced | retrieve/breaker.py:230-256 | any two probe admissions of any run are at least min(cooldown, lock TTL) apart |
| BreakerRuns.StatesMean | retrieve/breaker.py:263-326 | in every reachable state closed means fewer failures than the threshold and exactly those since the last applied success; open and half-open mean it was reached |
| BreakerRuns.OnlyEvidenceCloses | retrieve/breaker.py:295-326 | a straggler's success on an open or probing circuit changes nothing; a probe's closes it |
| BreakerRuns.NoWedge | retrieve/breaker.py:406-415 | from every reachable state the next call after max(cooldown, TTL) of silence is admitted, even if the probe's replica died |
| BreakerRuns.OutageBound | retrieve/breaker.py:230-289 | while no probe succeeds, the calls admitted in time t after the circuit opened number at most t / min(cooldown, TTL), and it never closes |
| BreakerRuns.AtMostOneProbe | retrieve/breaker.py:406-415 | if calls settle within a timeout below cooldown and TTL, at most one probe is ever in flight |
| Decay.DecayBounds | jobs/decay.py:207-236 | weight lies between the floor and the larger of floor and base, and is the latter at age zero |
| Decay.DecayFallsWithAge | jobs/decay.py:207-236 | weight falls with age, strictly while above the floor |
| Decay.ReinforcementSlowsDecay | jobs/decay.py:207-236 | at an equal base more reinforcement means more weight, strictly while above the floor |
| Decay.WeightRisesWithReinforcement | jobs/decay.py:178-236 | with its own peak a row reinforced more never weighs less at the same age |
| Decay.HistoryIndependence | jobs/decay.py:207-276 | any sequence of sweeps at nondecreasing times archives exactly the rows the last alone would, leaves other live rows as the last alone would, and does not touch deleted or archived rows |
| Nights.ManyNightsAreOne | jobs/decay.py:355-449 | any number of drained nights of the whole table archive exactly the rows the last alone would, leave every other row as it alone would, and touch no deleted row |
| Nights.DrainedIsSwept | jobs/decay.py:355-449 | a drained worker leaves every eligible row as a sweep would and every other as it was |
| Nights.FleetSweeps | jobs/decay.py:355-449 | a finished run of any number of workers that nobody else's change interrupts is one sweep of the table if and only if no eligible row is left, and each one left was locked by another transaction at the last empty claim |
| Decay.SweepIdempotent | jobs/decay.py:207-276 | a second sweep at the same time changes only the run stamp |
| DecayWorker.ClaimBatch | jobs/claims.py:153-215 | claims the stalest eligible rows nobody has locked, up to the batch size, all of them if fewer, and stamps exactly those |
| DecayWorker.ComputeUpdates | jobs/decay.py:253-276 | one update per claimed row, from its age and count, never from its current weight |
| DecayWorker.ApplyWeights | jobs/decay.py:279-315 | writes each new weight to its live row, and no deleted or unlisted row changes |
| DecayWorker.ArchiveRows | jobs/decay.py:318-343 | stamps exactly the listed live rows not archived before |
| DecayWorker.RunDecayBatch | graphs/decay_graph.py:95-220 | one batch takes the table to exactly the committed state of its claim; an empty claim changes nothing; the counts are right |
| DecayWorker.RunStats.AddProcessed | jobs/metrics.py:189-200 | appends ids until the first repeat, and raises exactly when there is one |
| DecayWorker.DrainOnce | jobs/decay.py:399-420 | one turn of the loop extends the record by fresh rows only and processes each of them, or finds none left |
| DecayWorker.RunDecayWorker | jobs/decay.py:355-449 | a worker alone processes rows at most once and never raises, leaves the rest untouched, and unless it hits the batch limit every eligible row is processed |
| SweepRuns.StepSane | jobs/claims.py:153-175 | every claim, commit, crash and rail exit, and every lock, change, release and insert by another transaction, keeps locks and committed batches disjoint and every initial row accounted for |
| SweepRuns.CommittedOnce | jobs/claims.py:159-175 | in every interleaving of workers no row is committed twice |
| SweepRuns.EmptyClaimMeansDrained | jobs/decay.py:399-411 | a worker that exits on an empty claim leaves only rows that open transactions hold, other workers' or anyone's |
| SweepRuns.SweptExactlyOnce | jobs/decay.py:355-435 | if all finish, one on an empty claim and no rollback after it, an initially eligible row was processed or deleted by its owner if and only if it is no longer eligible; one that still is was locked by another transaction at the last empty claim; no other initial row was processed |
| SweepRuns.LockedRowIsMissed | jobs/claims.py:153-175 | for any eligible row, a run in which another transaction holds it while the only worker claims, ending with the row live and unprocessed |
| SweepRuns.CrashGivesBack | jobs/claims.py:119-136 | a crash leaves the table as it was and each row held is available to the others again |
| Hybrid.Normalized | retrieve/hybrid.py:111-121 | a normalised score lies in [0, 1] for every raw score of either path |
| Hybrid.NormalizedOrderExactly | retrieve/hybrid.py:111-121 | normalisation never reverses two scores of one path and separates them exactly when they do not both fall off the same end |
| Hybrid.WeakMatchesTie | retrieve/hybrid.py:109-116 | two unequal negative similarities that normalise alike |
| Hybrid.MergeIsUnique | retrieve/hybrid.py:205-211 | the merged list is determined by each path's scores, so order within a path is invisible |
| Hybrid.MergedScoresStayInUnit | retrieve/hybrid.py:183-203 | merged scores lie in [0, 1] |
| Hybrid.AgreementWins | retrieve/hybrid.py:167-211 | a memory both paths found never scores below a memory either path alone found with no better score, and is listed ahead exactly when a score or the id tells them apart |
| HybridSearch.Normalize | retrieve/hybrid.py:111-121 | every candidate object gets its path's normalised score in place and nothing else it says changes |
| HybridSearch.Fold | retrieve/hybrid.py:186-196 | one pass of the merge: new memories enter as the path's own objects, known ones absorb the path's scores, paths and metadata |
| HybridSearch.Merge | retrieve/hybrid.py:167-211 | the sorted objects are the merge of the two paths' scores, each reporting both paths, its mean and its strongest path |
| HybridSearch.StrongestIsBest | retrieve/hybrid.py:200-203 | the path a candidate names scored it at least as high as any other |
| HybridSearch.RunPath | retrieve/hybrid.py:126-160 | a path that times out or raises becomes an empty list and one note |
| HybridSearch.Search | retrieve/hybrid.py:218-256 | a blank query touches nothing; otherwise failed paths and only those are noted, and the answer is the merge of what the others returned, scores in [0, 1] |
| Ranking.TotalsStayInUnit | retrieve/ranking.py:226-259 | totals lie in [0, 1], at an end only when all five signals are |
| Ranking.StatedLaterWins | retrieve/config.py:255-263 | of two otherwise equal memories with exchanged timestamps the one stated later wins |
| Ranking.FadingFalls | retrieve/features.py:159-250 | recency and activation never rise with age, and fall strictly for a past timestamp |
| Ranking.FrequencySaturates | retrieve/features.py:253-272 | frequency rises strictly with reinforcements and stays below one |
| Ranking.Rank | retrieve/ranking.py:294-334 | returns the first top-k of the sorted candidates; a negative top-k keeps none |
| Ranking.RankIgnoresInputOrder | retrieve/ranking.py:280-334 | permuted candidates rank identically |
| Ranking.RankKeepsTheBest | retrieve/ranking.py:280-334 | the result is in order, each candidate once, and nothing cut off outscores anything kept by more than the rounding |
| Ranking.RoundingIsMonotone | retrieve/ranking.py:280-291 | rounding to twelve places keeps order and hides only differences below the last place |
| Rendering.CleanKeepsEveryWord | context/composer.py:109-117 | flattening loses no word, adds none and is idempotent |
| Rendering.CleanIsOneLine | context/composer.py:109-117 | a flattened memory contains no whitespace but spaces |
| Rendering.BlankMeansNoWords | context/composer.py:229-232 | a memory flattens to nothing exactly when it is all whitespace |
| Rendering.BlockRoundTrip | context/composer.py:120-140 | splitting the block at newlines gives back the header and one whole line per memory with that memory's words |
| Rendering.EstimateIsTheBestBound | context/tokens.py:183-199 | the UTF-8 byte length bounds every tokenization by non-empty byte strings, and no smaller bound would |
| Fitting.LowestScoredIndex | context/composer.py:147-171 | the index of the lowest score, the highest id among ties, whatever the order of the list |
| Fitting.SameVictim | context/composer.py:147-171 | which memory goes depends on the memories, not on their order |
| Composer.Fit | context/composer.py:174-208 | the loop ends at the first fitting selection, with its block and count, never over budget unless empty |
| Fitting.FitPartitions | context/composer.py:174-208 | what is kept is the input minus what is dropped, in input order, and nothing is lost |
| Fitting.DropsTheWorst | context/composer.py:174-208 | memories are dropped worst first and each is worse than every one kept |
| Fitting.NoDroppedOutscoresKept | context/composer.py:31-33 | no dropped memory outscores a kept one |
| Fitting.LastDropWasNeeded | context/composer.py:195-206 | with all but the last dropped memory gone the selection does not fit, and that selection is what is kept with the last one back in its place |
| Fitting.DropsAgree | context/composer.py:174-208 | for any counter and budget, two orders of the same memories drop the same ones in the same sequence until one stops |
| Fitting.OrderBlindFitsAgree | context/composer.py:174-208 | for a counter blind to line order the dropped sequences are equal and the same memories are kept |
| Composer.EstimateIsOrderBlind | context/tokens.py:183-199 | with the byte-length counter what fits does not depend on line order |
| RankedFit.HiddenTieDropsTheFirst | retrieve/ranking.py:280-291 | two raw memories of any one text whose similarities differ by at most the last place, ranked in id order, of which the composer with the byte-length counter keeps the second |
| RankedFit.DropOrderExactly | context/composer.py:164-171 | ranking and dropping order a ranked list alike exactly when scores that round alike are in exact order |
| RankedFit.EstimateIsStrict | context/tokens.py:183-199 | to the byte-length counter every memory costs something |
| RankedFit.PrefixExactly | context/composer.py:174-208 | scores that round alike being in exact order is enough, for any counter, for what is kept to be a prefix of a ranked list under every budget, and necessary for any counter to which every memory costs something |
| RankedFit.PrefixExactlyInBytes | context/tokens.py:183-199 | with the byte-length counter it is necessary and sufficient |
| RankedFit.ComposedPrefixExactly | context/composer.py:265-302 | the same of ranking raw candidates and then composing, with the byte-length counter or any to which every memory costs something |
| Composer.ComposeProfileBlock | context/composer.py:215-262 | blank memories filtered, a negative budget is no room, and the fitted result reported whole |
| Composer.ProfileIsFaithful | context/composer.py:66-84 | tokens are the block's own count and within budget; the block is the header and one line per included memory; no blank memory is included |
| Composer.BudgetHoldsForAnyTokenizer | context/tokens.py:70-80 | with the byte-length counter no byte-covering tokenizer needs more tokens than the budget |
| Composer.Compose | context/composer.py:265-302 | raw candidates are ranked first, ranked ones taken as they come, a mixture refused, an empty list answered with an empty block |
| Composer.ComposeIgnoresInputOrder | context/composer.py:265-302 | permuted raw candidates compose to the identical result |
| Pool.StepSound | store/db.py:151-214 | every segment of every call keeps at most one unclosed pool per database, each one recorded or being opened by its lock's holder |
| Pool.OnePoolNoneLost | store/db.py:151-214 | in every interleaving one database never has two unclosed pools, and once all calls end every pool is closed or the recorded one |
| Pool.CallerGetsTheOpenPool | store/db.py:166-214 | a call is handed the recorded pool, open at that moment |
| Pool.NobodyWaitsForever | store/db.py:170-214 | a waiting call can take the lock, or its holder will release it whether its open succeeds or fails |
| Pool.Registry.GetPool | store/db.py:164-176 | the code up to its first await: cached pool, the lock, or a place in its queue |
| Pool.Registry.Create | store/db.py:171-204 | inside the lock: the pool re-checked, or a new one made and being opened |
| Pool.Registry.Settle | store/db.py:205-214 | after the open: recorded and returned, or closed and raised, with the lock released either way |

## Left out

- Language models, embeddings, extraction, PII scrubbing and scoring: their results are arbitrary inputs here.
- The frontend, HTTP routing, identity parsing, health checks, metrics, logging, scheduling, migrations and `evals/metrics.py`.
- Importance, confidence, created_at, updated_at and decay_claimed_at columns of the lifecycle table: no guard of a modelled statement reads them.
- The density query that picks a cluster (`jobs/reflection.py:187-206`): any set of candidate rows of an allowed size may be selected, which includes what the query returns.
- Similarity is any function of two embeddings; vectors are never empty and similarities never undefined, and the order of equally similar rows is left open.
- Ids are insertion numbers and compare as numbers; the program's are UUIDs compared as text. Only that the order is total and ids are distinct is used, except that "later" means inserted later.
- The order in which a RETURNING list lists rows is taken as ascending.
- Within a capture other transactions may come between its two lookups and its writes; an INSERT with its supersession and its audit rows is one step, what a capture has written is visible to the others as it writes it rather than at its COMMIT, and a rollback after a write is not modelled.
- Row-level security is the filter "own subject and own actor"; the policies themselves are not modelled.
- Arithmetic is over reals: floating-point rounding is left out, and rounding to twelve places is an explicit function on reals.
- `0.5 ** x` is any function that is 1 at 0, in (0, 1] and strictly decreasing. Weight bounds assume the relations of the shipped defaults (`Decay.Sound`), of which the program itself checks only threshold above floor.
- The breaker's clock is one shared monotone clock; the threshold is fixed; an unreadable record counts as a missing one; `force_open`, `reset`, script caching and the Redis transport are not part of this model.
- Breaker.GuardedSearch: is one call that no other overlaps; overlapping calls are the steps of the fleet.
- Sweep claims range over all subjects; the optional subject filter of `claim_batch` only narrows the eligible rows.
- DecayWorker.RunDecayWorker: has the table to itself and an explicit sweep time; several workers, and rows others have locked, are the interleavings of `SweepRuns`.
- A lost connection after COMMIT was sent, and a retry of a transaction by the driver.
- HybridSearch.Merge: a path never returns two candidates with one id, and a candidate's scores are a record over the two paths that exist rather than an open dictionary; ghost arguments carry what the lists say.
- The signals of `retrieve/features.py` on malformed metadata (text, booleans, NaN): a candidate's fields here are numbers or absent.
- Text is sequences of Unicode scalar values, so lone surrogates, which UTF-8 cannot encode, do not occur.
- Exact and fallback token counting (`tiktoken`): a counter is any function of the block; the byte-length estimate is modelled.
- Pool.OnePoolNoneLost: closing a pool is one atomic step, so a cancellation during the clean-up close, and a concurrent `close_pools`, are not covered.
