# Verified model of the memory system's hard protocols

A Dafny model, with proofs, of the parts of this repository that carry the most state and branching:

- **Canonical memory view.** `StableSorting`, `AliasNormalForm`, `ControlView`, `ControlViewLaws` and
  `ControlViewTies`: the evaluation-only view of a compact checkpoint. Text is lines of tokens: literal text, `A`
  aliases, `E` aliases. The view is a canonical form of the checkpoint's content, under an exact condition.
  `Renderings` is one content rendered under different aliases, with raw words that read like aliases.
- **Team PostgreSQL pool.** `ConnectionPool` holds the lock regions, the pool, wrapper and request objects;
  `PoolProtocol` runs the same regions under every interleaving of any number of callers, with a condition
  variable that keeps its waiters in order; `PoolReuse` follows connections and waiters over whole runs.
- **Paid provider calls.** `ProviderJournal` is a run directory across processes that may crash between any two
  steps; `ProviderJournalLaws` says what every history keeps, `ProviderAnswers` that what is recorded is what the
  provider said, and `ProviderCompletion` which directories can still be completed.
- **Supervised attempts.** `Candidates`, `Executor`, `SupervisedAttempt`, `SupervisedLaws` and `Trajectory`: the
  local executor, the frontier advisor, the acceptance rule on every path, and the books of the session loop;
  `Costs` sums them over the single replies. `SessionCounters` and `FrontierBudget` cover the error counters and
  the two budgeted adapters.
- **Filler verdicts.** `NoteVerdicts`, `NoteJudge` and `NotePriming`: the verdict cache, the background judge under
  its limits, and the priming loop. `FillerNotes` and `FillerLaws`: candidates, drops, and the reduced packet.
- **Small protocols.** `DeferredPort` (lazy MCP session), `McNemar` (exact tail) and `TextSearch` with
  `MarkdownHandoff` (printer and reader). `Basics` holds what the models share.

`dafny verify dfyconfig.toml` checks everything. Code that changes state step by step is modelled by classes and
loops proved against functions; the laws are lemmas about those functions and about runs of any length.

## What the proofs found

- The view is documented to remove run-local identities, but an `OMISSION` line carries the checkpoint's random
  prefix in its retrieval handles (`src/mnemo_memory/packages/application/semantic_rendering.py:610-611`), and the view
  keeps body literals. The model follows the code: `IdentityLeavesViewIff` gives the exact condition,
  `OmissionShowsIdentity` that every rendering with an omission fails it, and `OmissionExampleDiffers` one of them.
- Two lines of one section with the same semantic key reach the view in their input order (`TieReachesView`). The
  ordering stage forgets the arrangement exactly when no two different lines tie (`OrderIndependentIff`); the view
  itself forgets it exactly when exchanging any two tied neighbours is undone by renaming aliases
  (`ViewForgetsArrangementIff`, `ViewForgetsPresentationIff`), which ties may meet (`HarmlessTie`).
- The renderer copies an atom's meaning as it is, so a word such as `A1` or `E5` in it is taken for an alias. Two
  renderings of one text are renumbered alike exactly when each such word is the alias of the same atom or evidence in
  both, or of none in either (`RenderingsAgreeIff`, and `RawWordShows` for one that is not); a word that reads like an
  evidence alias outside the trace makes the view fail (`RawWordRejected`).
- The pool gives up a slot before the physical close, so "physically open <= maximum" is false
  (`OpenMayExceedMaximum`). `OpenIsExact` counts the open connections in every reached state and says exactly when
  the maximum bounds them.
- A paid run that stopped before its configuration was written, or in which one call failed or was left without an
  outcome, can never be completed, by any number of resumes; every other one can, its configuration unchanged
  (`CompletableIff`).
- The verdict key leaves out the scope, so a reader that serves one item id and text for two queued scopes yields one
  key twice in a take (`TwoScopesOneKey`), and the bound of three failed asks then fails (`TwoScopesBreakBound`). The
  drain's own limits do not depend on it. `BatchBoundIff` and `CacheBoundIff` say exactly which lists of notes keep the
  bound of three whatever the replies; distinct notes that need judging do (`DistinctFits`).
- The handoff's scope check is a substring test: it accepts a digest `d'` for a handoff of `d` also when `d` ends in
  `Scope-SHA256: d'`, and a digest ending in `## Current` breaks the split (`ScopeAcceptedIff`, `RoundTripIff`).
  Digests of one length, as SHA-256 gives, are not confused (`OtherDigestsRejected`). A carriage return in the history
  comes back as a newline, since the file is read as text.
- The OpenAI adapter's spend check after a send fires exactly when a report costs more than was left
  (`OpenAiOverLimitWhen`), at most once in a run (`OpenAiOverLimitIff`), and only if a report exceeds its own request
  (`OpenAiSpendWithinLimit`, `OpenAiMayOverspend`).

## Assumptions of the model

- Section tags are literal text, and the references in a trace entry hold no alias-like text. That two renderings of one
  checkpoint present the same content (`ControlViewLaws.Presents`) supposes agreeing raw words (`RenderingsPresent`).
- Digests and hashes are opaque: the view's digest is a parameter, and a prompt's hash is the prompt itself.
- `verify_candidate_against_memory` is an arbitrary deterministic function of the configuration; model and frontier
  replies are arbitrary functions of the request number and the prompt.
- Money and verdict probabilities are real numbers; clock readings are whole seconds and never go back.
- A run directory has one process at a time, appends are atomic, and schedule rows have distinct keys. A crash event
  also stands for an exhausted wall clock and for a changed resume configuration.
- The judge's reader serves each requested note at most once. That a take yields no text twice is assumed only for
  the bound of three asks. Asks whose outcome could not be written are not remembered, as in the code.
- A connect is done with one caller per reservation; each wrapper has one owner.

## Model

| member | source | states |
|---|---|---|
| `AliasNormalForm.RenumberCompactAliases` | scripts/run_long_horizon_evaluation.py:730-738 | the substitution loop yields the renumbered text and a dictionary holding every alias once, in order of first use, numbered from 1 |
| `AliasNormalForm.FirstUsesListsAliases` | scripts/run_long_horizon_evaluation.py:731-738 | the dictionary lists each alias of the text exactly once and nothing else |
| `AliasNormalForm.RenumberedInOrder` | scripts/run_long_horizon_evaluation.py:730-738 | a renumbered text uses the aliases 1, 2, ..., k, in that order of first use |
| `AliasNormalForm.RenumberForgetsNames` | scripts/run_long_horizon_evaluation.py:730-738 | every one-to-one renaming of the aliases gives the same result |
| `AliasNormalForm.RenumberIdempotent` | scripts/run_long_horizon_evaluation.py:730-738 | renumbering a renumbered text changes nothing |
| `AliasNormalForm.RenumberNormalForm` | scripts/run_long_horizon_evaluation.py:730-738 | two texts get the same result if and only if a one-to-one alias renaming takes one to the other |
| `AliasNormalForm.CanonicalNormalForm` | scripts/run_long_horizon_evaluation.py:792-793 | the same for both alias kinds renumbered one after the other |
| `StableSorting.SortIsStableSort` | scripts/run_long_horizon_evaluation.py:757-761 | the sort is sorted by code points, a permutation, and keeps the order of equal keys |
| `StableSorting.SortForgetsOrder` | scripts/run_long_horizon_evaluation.py:757-761 | when equal keys mean equal lines, the sort does not depend on the input order |
| `StableSorting.LeqIs` | scripts/run_long_horizon_evaluation.py:757-761 | one key is before another when it is its prefix or smaller at the first place where they differ |
| `ControlView.ReadTrace` | scripts/run_long_horizon_evaluation.py:779-789 | the trace loop accepts and rejects as the reference parser does |
| `ControlView.ParseTraceAccepts` | scripts/run_long_horizon_evaluation.py:779-789 | a trace is accepted exactly when every entry is a well-formed evidence alias with references and no alias repeats; the map then holds exactly the entries |
| `ControlView.StableCompactBodyOrder` | scripts/run_long_horizon_evaluation.py:741-761 | the grouping loop orders each maximal run of equal tags on its own |
| `ControlView.OrderStaysInSections` | scripts/run_long_horizon_evaluation.py:742-761 | lines move only inside their section |
| `ControlView.OrderSortsSections` | scripts/run_long_horizon_evaluation.py:741-761 | every section comes out sorted by semantic key, equal keys as they arrived |
| `ControlView.KeyReads` | scripts/run_long_horizon_evaluation.py:744-754 | in the semantic key every atom alias reads `A`, an evidence alias reads as its references, and one without references as it stands |
| `ControlView.TextKeyIs` | scripts/run_long_horizon_evaluation.py:744-754 | the key of two texts in a row is their keys in a row, and literal words are kept |
| `ControlView.TextIs` | scripts/run_long_horizon_evaluation.py:791-792 | the body is its lines joined by newlines |
| `ControlView.OrderIndependentIff` | scripts/run_long_horizon_evaluation.py:742-761 | the order is independent of how the sections arrive arranged if and only if no section holds two different lines with one semantic key |
| `ControlView.BuildPairedControlMemory` | scripts/run_long_horizon_evaluation.py:764-800 | the view as the steps build it is the one the laws speak of, errors included |
| `ControlViewLaws.ViewErrorsAre` | scripts/run_long_horizon_evaluation.py:772-795 | which checkpoints have a view and which of the three errors each other one gets: not compact, a trace with a malformed or repeated entry, or a trace that does not name exactly the evidence aliases of the body |
| `ControlViewLaws.ViewForgetsPresentation` | scripts/run_long_horizon_evaluation.py:764-800 | aliases, line arrangement inside sections, trace entry order and header identity do not reach the view; errors included |
| `ControlViewLaws.ViewCanonical` | scripts/run_long_horizon_evaluation.py:764-800 | two accepted checkpoints without key ties have one view if and only if one is the other under another presentation |
| `ControlViewLaws.ViewKeepsContent` | scripts/run_long_horizon_evaluation.py:764-800 | the view keeps every line, with each section sorted by semantic key and one-to-one new aliases, and every evidence reference under its alias; its digest is that of what it shows |
| `ControlViewLaws.ViewLiterals` | scripts/run_long_horizon_evaluation.py:767-770 | a literal is in the view exactly when it is in the checkpoint body |
| `ControlViewLaws.IdentityLeavesViewIff` | src/mnemo_memory/packages/application/semantic_rendering.py:602-623 | the random identity leaves the view exactly when no body line names it |
| `ControlViewLaws.OmissionShowsIdentity` | src/mnemo_memory/packages/application/semantic_rendering.py:602-623 | two runs whose body holds an omission line, with a handle for each omitted kind, get different views |
| `ControlViewLaws.OmissionExampleDiffers` | src/mnemo_memory/packages/application/semantic_rendering.py:602-623 | a fact and an omission line: accepted under any two hexadecimal prefixes, with different views |
| `ControlViewLaws.TieReachesView` | scripts/run_long_horizon_evaluation.py:744-761 | a concrete pair of lines with one key, told apart by a later line, reaches the view in its input order |
| `ControlViewTies.ViewForgetsArrangementIff` | scripts/run_long_horizon_evaluation.py:741-800 | how the lines of an accepted checkpoint arrive arranged inside sections does not reach the view if and only if exchanging any two neighbours with one key in the ordered body is undone by a one-to-one alias renaming that keeps the references |
| `ControlViewTies.ViewForgetsPresentationIff` | scripts/run_long_horizon_evaluation.py:764-800 | the same condition is exactly when no presentation (aliases, arrangement, trace order, header identity) reaches the view |
| `ControlViewTies.ViewCanonicalWhenUndone` | scripts/run_long_horizon_evaluation.py:764-800 | under that condition one view means one content |
| `ControlViewTies.DistinguishableUndone` | scripts/run_long_horizon_evaluation.py:744-761 | distinct semantic keys inside each section meet the condition |
| `ControlViewTies.HarmlessTie` | scripts/run_long_horizon_evaluation.py:744-761 | two different lines with one key that meet it |
| `Renderings.RenderingsAgreeIff` | src/mnemo_memory/packages/application/semantic_rendering.py:501-519 | two renderings of one text under one-to-one aliases are renumbered alike if and only if every raw word that reads like an alias is the alias of the same mention in both or of none in either |
| `Renderings.RenderingsPresent` | src/mnemo_memory/packages/application/semantic_rendering.py:273-289 | under that condition two renderings of one page, lines and trace in any order inside sections, present the same content |
| `Renderings.RenderingsShowAlike` | scripts/run_long_horizon_evaluation.py:764-800 | and have one view, if ties do not matter |
| `Renderings.RawWordShows` | src/mnemo_memory/packages/application/semantic_rendering.py:501-519 | a raw `A1` that two renderings give to different atoms reaches the renumbered text |
| `Renderings.RawWordRejected` | scripts/run_long_horizon_evaluation.py:792-795 | a raw word that reads like an evidence alias outside the trace ends in the coverage error |
| `ConnectionPool.PostgresConnectionPool.EnterAcquireRegion` | src/mnemo_memory/apps/mcp/team_runtime.py:95-107 | one pass through the acquire lock region: unavailable, reuse of the last idle connection, reservation, or wait |
| `ConnectionPool.PostgresConnectionPool.Acquire` | src/mnemo_memory/apps/mcp/team_runtime.py:92-114 | an undisturbed acquire: which connection is handed out, when it fails, and that every connection stays accounted for |
| `ConnectionPool.PostgresConnectionPool.EnterReleaseRegion` | src/mnemo_memory/apps/mcp/team_runtime.py:122-128 | a connection that may be reused goes to the end of the idle list of an open pool and keeps its slot; any other is given up with its slot, and is to be closed |
| `ConnectionPool.PostgresConnectionPool.Release` | src/mnemo_memory/apps/mcp/team_runtime.py:116-130 | after a rollback that succeeded on an open pool the connection is idle and nothing is closed; otherwise its slot is free and it is closed once; it is never lost |
| `ConnectionPool.PostgresConnectionPool.Close` | src/mnemo_memory/apps/mcp/team_runtime.py:132-142 | the first close closes exactly the idle connections and frees their slots, a later one does nothing; with nothing lent, nothing is left created and each connection made is retired once |
| `ConnectionPool.PooledConnection.Close` | src/mnemo_memory/apps/mcp/team_runtime.py:63-67 | the first close of a wrapper returns its connection as a release does; later ones change nothing |
| `ConnectionPool.RequestConnections.Borrow` | src/mnemo_memory/apps/mcp/team.py:99-102 | the first repository use borrows the last idle connection, or a new one when none is idle; later uses share it |
| `ConnectionPool.RequestConnections.Release` | src/mnemo_memory/apps/mcp/team.py:104-111 | the connection is returned even when rollback raises, and the request then holds nothing |
| `ConnectionPool.RequestConnections.Serve` | src/mnemo_memory/apps/mcp/team.py:166-196 | a port method succeeds exactly when its uses do and, if it uses the pool, a connection is had and rollback does not raise; whatever happens nothing of the request stays lent, and one connection was used and returned, or none |
| `PoolProtocol.StepKeeps` | src/mnemo_memory/apps/mcp/team_runtime.py:92-142 | every lock region, wait, wake-up, time-out, connect, rollback and physical close keeps the invariant |
| `PoolProtocol.RunKeeps` | src/mnemo_memory/apps/mcp/team_runtime.py:92-142 | so does every interleaving of any number of callers |
| `PoolProtocol.PoolConserves` | src/mnemo_memory/apps/mcp/team_runtime.py:92-142 | created = idle + lent + connecting <= the configured maximum, which never changes; idle is duplicate-free and disjoint from what is held; no connection is in two hands or retired twice |
| `PoolProtocol.ClosedPoolRetiresAll` | src/mnemo_memory/apps/mcp/team_runtime.py:132-142 | once closed and idle again, created is 0 and every connection ever made was retired exactly once |
| `PoolProtocol.NoLostWakeUp` | src/mnemo_memory/apps/mcp/team_runtime.py:92-130 | woken callers number at least the smaller of free capacity and queued waiters, at every moment of every run |
| `PoolProtocol.WokenAgentServed` | src/mnemo_memory/apps/mcp/team_runtime.py:95-107 | a caller that enters with free capacity leaves with a connection or a reservation, deadline or not |
| `PoolProtocol.OpenIsExact` | src/mnemo_memory/apps/mcp/team_runtime.py:92-130 | in every reached state connections made and not yet closed, plus connects in progress, equal created plus pending closes; they are within the maximum if and only if the pending closes fit in the free and reserved slots |
| `PoolProtocol.OpenMayExceedMaximum` | src/mnemo_memory/apps/mcp/team_runtime.py:127-130 | a concrete run in which two connections are open in a pool of one |
| `PoolReuse.GoodConnectionsStay` | src/mnemo_memory/apps/mcp/team_runtime.py:92-130 | in every run without a close and without a failed rollback nothing is closed physically, and no more connections are ever made than the maximum |
| `PoolReuse.FailedNeverReused` | src/mnemo_memory/apps/mcp/team_runtime.py:116-130 | a connection whose rollback failed is never idle and never lent again, in any continuation |
| `PoolReuse.CloseIsFinal` | src/mnemo_memory/apps/mcp/team_runtime.py:132-142 | after a close the pool stays closed with nothing idle and nobody queued, and only connects already under way still make connections |
| `PoolReuse.WakesLongestWaiting` | src/mnemo_memory/apps/mcp/team_runtime.py:108-128 | a release or a failed connect wakes exactly the queued caller that has waited longest |
| `PoolReuse.CloseWakesAll` | src/mnemo_memory/apps/mcp/team_runtime.py:132-139 | a close wakes every queued caller |
| `PoolReuse.EntersInOrder` | src/mnemo_memory/apps/mcp/team_runtime.py:95-107 | a caller that enters leaves its own place in the queue and joins at the end if it waits again; the others keep theirs |
| `ProviderJournal.ReadJournalStates` | scripts/run_lifecycle_token_break_even.py:922-936 | the loop agrees with the journal fold |
| `ProviderJournal.JournalStatesAre` | scripts/run_lifecycle_token_break_even.py:922-936 | a journal is accepted if and only if no row follows a terminal row of its key; the map then holds exactly its keys, each with the status of its last row |
| `ProviderJournalLaws.StepKeeps` | scripts/run_lifecycle_token_break_even.py:1676-1815 | every launch, step and crash of a run directory keeps the invariant over journal, result file and process memory |
| `ProviderJournalLaws.HistoryKeeps` | scripts/run_lifecycle_token_break_even.py:1676-1815 | so does every history of launches, crashes, failures and resumes |
| `ProviderJournalLaws.SentAtMostOnce` | scripts/run_lifecycle_token_break_even.py:974-1031 | in every history no key is sent twice, every sent key is scheduled and journaled, and every terminal row stands for a send |
| `ProviderJournalLaws.SendsAfterStarted` | scripts/run_lifecycle_token_break_even.py:974-1031 | every step that sends, in every history, sends one scheduled key whose durable state is started and which was never sent before |
| `ProviderJournalLaws.NeverSentAgain` | scripts/run_lifecycle_token_break_even.py:1034-1051 | a key with a journal row and not in flight is never sent in any continuation: included, failed or orphaned |
| `ProviderJournalLaws.GuardsNeverFire` | scripts/run_lifecycle_token_break_even.py:1744-1810 | the terminal-replay, duplicate-row, call-limit, first-row and final-row guards never fire in any history |
| `ProviderJournalLaws.ResultsFollowSchedule` | scripts/run_lifecycle_token_break_even.py:1752-1798 | the result file is always a prefix of the schedule; provider rows carry the metadata of their journal row, the others none |
| `ProviderJournalLaws.ReturnedRunPaidExactly` | scripts/run_lifecycle_token_break_even.py:1722-1815 | a run that returns has, over its whole history, sent each of the 36 primary calls once, the preflight once and nothing else |
| `ProviderAnswers.JournalRepeatsAnswers` | scripts/run_lifecycle_token_break_even.py:992-1031 | in every history each call sent has one answer, an included row carries the metadata of that very answer, and a failed row stands for a call that raised |
| `ProviderAnswers.AnswersReachJournal` | scripts/run_lifecycle_token_break_even.py:992-1031 | the journal says of a call that was sent what it was answered, or nothing yet |
| `ProviderAnswers.ResultsCarryAnswers` | scripts/run_lifecycle_token_break_even.py:1777-1798 | every provider row of the result file carries the metadata the provider gave for that call |
| `ProviderCompletion.StopsExplained` | scripts/run_lifecycle_token_break_even.py:1034-1051 | a process reports an orphan only for a call without an outcome and a failure only for one that raised, for good; the failure file lists exactly the calls that failed, in order |
| `ProviderCompletion.LaunchCompletes` | scripts/run_lifecycle_token_break_even.py:1722-1815 | a launch on a directory whose calls were all included, left alone and answered, completes the run |
| `ProviderCompletion.CompletableIff` | scripts/run_lifecycle_token_break_even.py:1676-1815 | a directory at rest can still be completed if and only if it is finished, or is not left without configuration and no call in it failed or is without an outcome |
| `ProviderCompletion.FirstRowReadBack` | scripts/run_lifecycle_token_break_even.py:1751-1801 | in every history the first provider row of the file is read back before the process goes on, and no later one is |
| `Candidates.PermittedWhen` | scripts/run_long_horizon_evaluation.py:866-891 | a field of the initial configuration may take any value, unless its values are listed or it is a time zone, an idempotency key or a status code; no other field may be changed |
| `Candidates.ValidChangesSound` | scripts/run_long_horizon_evaluation.py:866-892 | every permitted entry is kept as proposed, also beside invalid ones, nothing else is, and the others are counted; none is invalid exactly when the response proposes permitted entries only |
| `Candidates.EffectiveChangesMinimal` | scripts/run_long_horizon_evaluation.py:895-906 | the reduced changes lead to the same configuration and every change set that does contains their fields |
| `Candidates.CheckIs` | scripts/run_long_horizon_evaluation.py:1969-1973 | the report is on the base with every changed field changed and every other field kept |
| `Executor.LocalModel.RoundFrom` | scripts/run_long_horizon_evaluation.py:1828-1850 | a round is the reply to the prompt, or a reasoning reply and the reply to the prompt that carries its thoughts |
| `Executor.LocalModel.RoundAt` | scripts/run_long_horizon_evaluation.py:1827-1863 | the rounds follow one another, each begun when those before are over |
| `Executor.PromptsAre` | scripts/run_long_horizon_evaluation.py:1851-1863 | the first prompt is the base prompt and each later one carries the report before it |
| `Executor.LocalModel.AskCandidate` | scripts/run_long_horizon_evaluation.py:1828-1850 | one round is sent as the strategy says |
| `Executor.LocalModel.RefineOnce` | scripts/run_long_horizon_evaluation.py:1827-1863 | one retry on the last report keeps the draft equal to what the replies say and cost |
| `Executor.LocalModel.Generate` | scripts/run_long_horizon_evaluation.py:1787-1884 | at most three rounds, a retry exactly after a mismatch, each retry prompt carrying the report before it, usage and latency summed over all replies, and the last report that of the returned changes |
| `SupervisedAttempt.Attempt.CallFrontier` | scripts/run_long_horizon_evaluation.py:1993-2004 | the prompt is recorded first; exactly a raise, a wrong purpose or another provider or model than the first stops the attempt |
| `SupervisedAttempt.Attempt.CallAdvisor` | scripts/run_long_horizon_evaluation.py:1987-2009 | one review call with its prompt, parsed review and recorded status |
| `SupervisedAttempt.Attempt.CallPlan` | scripts/run_long_horizon_evaluation.py:1975-1985 | a plan route goes on only with a valid plan, and then works on it |
| `SupervisedAttempt.Attempt.Finish` | scripts/run_long_horizon_evaluation.py:2052-2087 | the candidate reports the books of the attempt, with the invalid changes of a takeover added, and returns a response only when accepted |
| `SupervisedAttempt.Attempt.RepairAndReview` | scripts/run_long_horizon_evaluation.py:2144-2160 | repair round, report, and a second review exactly when the repair parsed |
| `SupervisedAttempt.Attempt.ReviewAndRepair` | scripts/run_long_horizon_evaluation.py:2133-2175 | first review, then acceptance, rejection or the repair |
| `SupervisedAttempt.Attempt.TakeOver` | scripts/run_long_horizon_evaluation.py:2116-2132 | one direct call, accepted exactly when sound; no review |
| `SupervisedAttempt.Attempt.Generate` | scripts/run_long_horizon_evaluation.py:1936-2175 | an invalid route does nothing; otherwise the attempt stops only at an unusable frontier answer or an unreadable plan, and a finished one began, was decided and was recorded as its path says |
| `SupervisedAttempt.LessonsAre` | scripts/run_long_horizon_evaluation.py:2163-2174 | lesson fields are the flagged fields that mismatched at first and were changed in the end, each once |
| `SupervisedLaws.AcceptanceSound` | scripts/run_long_horizon_evaluation.py:2102-2175 | on every path an accepted candidate is parsed, fully permitted, reported on with its own changes without mismatch or unverifiable change, and passed its last review; a rejected one returns nothing |
| `SupervisedLaws.AcceptedIff` | scripts/run_long_horizon_evaluation.py:2102-2175 | an attempt is accepted if and only if a reply that proposes permitted entries only, and whose report finds no mismatch and verifies every changed field, came first on a gated route without a plan, came from a takeover, or was passed by the last review |
| `SupervisedLaws.TakeoverSoundIff` | scripts/run_long_horizon_evaluation.py:2116-2132 | a takeover is sound exactly when the frontier's answer deserves it; its changes are the proposed entries that differ from the base |
| `SupervisedLaws.CallsBounded` | scripts/run_long_horizon_evaluation.py:2052-2087 | at most two executor rounds and two reviews, a plan exactly on the plan route, at most one takeover and then no review; frontier calls are these and match the prompt hashes |
| `SupervisedLaws.OneAdvisor` | scripts/run_long_horizon_evaluation.py:1998-2003 | all frontier answers of an attempt come from one provider and model |
| `SupervisedLaws.LessonsSupported` | scripts/run_long_horizon_evaluation.py:2225-2237 | lesson fields always pass the bound and distinctness guards of the memory that stores them |
| `SupervisedLaws.RepairNamesFields` | scripts/run_long_horizon_evaluation.py:1659-1702 | a repair round is told at least one field of the schema and one step that is not blank, within the bounds of a review |
| `SupervisedLaws.PassFindsNothing` | scripts/run_long_horizon_evaluation.py:1693-1694 | an accepted reviewed candidate was passed by a last review that names no field and no step |
| `SupervisedLaws.SessionsStayInSchema` | scripts/run_long_horizon_evaluation.py:866-892 | no number of sessions with permitted changes adds or loses a field, or leaves a changed field with a value the schema does not allow |
| `SupervisedLaws.AttemptIsProper` | scripts/run_long_horizon_evaluation.py:2581-2598 | a supervised candidate meets what the session loop relies on |
| `Costs.ReplyUsage` | scripts/run_long_horizon_evaluation.py:1864-1884 | the usage of a generation is, counter by counter, the sum over its replies |
| `Costs.AttemptCosts` | scripts/run_long_horizon_evaluation.py:2052-2087 | executor usage is, counter by counter, the sum over every reply of the one or two rounds, which number the executor calls; frontier usage is the sum over the frontier answers, latency the sum over both |
| `Costs.AttemptInvalid` | scripts/run_long_horizon_evaluation.py:2052-2087 | invalid changes are those of the executor rounds and of a takeover |
| `Costs.TotalsAre` | scripts/run_long_horizon_evaluation.py:2581-2598 | every total of a trajectory is the sum over the sessions that ran |
| `Trajectory.RunSessions` | scripts/run_long_horizon_evaluation.py:2556-2680 | sessions run until one stays unresolved; every field of the configuration ends with what the last completed session to change it set, or its initial value; the unresolved one counts in the totals only, and each one before it has left its memory when the condition keeps them |
| `Trajectory.AppliedHoldsLast` | scripts/run_long_horizon_evaluation.py:2556-2561 | the fields are the initial ones and all changed ones, each with the value of the last session that changes it, or its initial value |
| `Trajectory.MemoryAt` | scripts/run_long_horizon_evaluation.py:2645-2680 | the memory of a session holds its response, its lesson fields and a configuration in which every field is as the last session up to it to change it set |
| `Trajectory.TotalsSplit` | scripts/run_long_horizon_evaluation.py:2581-2598 | over any number of sessions totals are executor plus frontier, and prompt hashes number the frontier calls |
| `Trajectory.FrontierCallsAre` | scripts/run_long_horizon_evaluation.py:2590-2592 | total frontier calls are plans, takeovers and reviews |
| `SessionCounters.CountErrors` | scripts/run_long_horizon_evaluation.py:2568-2576 | the loops over sessions and fields keep the counters tied to the runs of wrong observations |
| `SessionCounters.CountersRefineRuns` | scripts/run_long_horizon_evaluation.py:2568-2576 | repeated errors = wrong observations minus maximal wrong runs, self-corrections = runs ended by a correct value, and wrong observations = both plus fields wrong at the end |
| `SessionCounters.RunsEndOrLast` | scripts/run_long_horizon_evaluation.py:2568-2576 | for one field: wrong runs = ended runs + the run still going |
| `SessionCounters.SumIs` | scripts/run_long_horizon_evaluation.py:2568-2576 | the sums behind the counters count, field by field, the wrong observations, the places where a run of them starts, and those where a correct one ends it |
| `SessionCounters.ColumnIs` | scripts/run_long_horizon_evaluation.py:2568-2576 | a field's column is all observations of that field, in order |
| `FrontierBudget.OpenAiFrontier.Call` | scripts/run_long_horizon_evaluation.py:1180-1234 | one OpenAI call: refused, failed, over the limit or returned, and the state it leaves |
| `FrontierBudget.CostIs` | scripts/run_long_horizon_evaluation.py:1187-1191 | a million input tokens cost the input rate, a million output tokens the output rate, and costs add up |
| `FrontierBudget.OpenAiSentWhen` | scripts/run_long_horizon_evaluation.py:1180-1191 | in any run a call is sent if and only if its purpose and prompt are valid, fewer calls than the limit were sent, and the reports so far and the worst cost of this request stay within the limit |
| `FrontierBudget.OpenAiSendsWithinLimit` | scripts/run_long_horizon_evaluation.py:1185-1222 | in any sequence of calls, failures included, sends number the counter and never exceed the limit, and recorded spend is what the sends reported |
| `FrontierBudget.OpenAiSpendWithinLimit` | scripts/run_long_horizon_evaluation.py:1187-1225 | if usage stays within prompt bytes and the output cap, recorded spend never exceeds the limit and the check after the send never fires |
| `FrontierBudget.OpenAiOverspentSendsNothing` | scripts/run_long_horizon_evaluation.py:1187-1191 | after an overspend every call is refused |
| `FrontierBudget.OpenAiOverLimitWhen` | scripts/run_long_horizon_evaluation.py:1187-1225 | a call ends over the limit if and only if it was sent and what it reports costs more than was left |
| `FrontierBudget.OpenAiOverLimitIff` | scripts/run_long_horizon_evaluation.py:1187-1225 | this happens once in a run whose recorded spend ends above the limit, and never in any other |
| `FrontierBudget.OpenAiMayOverspend` | scripts/run_long_horizon_evaluation.py:1223-1225 | a concrete report above its request overspends |
| `FrontierBudget.CodexFrontier.Call` | scripts/run_long_horizon_evaluation.py:1488-1568 | one Codex call and the state it leaves |
| `FrontierBudget.CodexSentWhen` | scripts/run_long_horizon_evaluation.py:1488-1556 | in any run a call is sent if and only if its purpose and prompt are valid, fewer calls than the limit were sent and the tokens reported are below the cap; and how it then ends |
| `FrontierBudget.CodexWithinLimits` | scripts/run_long_horizon_evaluation.py:1493-1556 | sends never exceed the call limit, tokens of returned calls never exceed the cap, at most one send reports past it |
| `FrontierBudget.CodexExceededIsLast` | scripts/run_long_horizon_evaluation.py:1494-1497 | nothing is sent after the report that went past the cap |
| `NoteVerdicts.AppliedAt` | src/mnemo_memory/packages/storage/local_note_verdicts.py:128-144 | with distinct keys each outcome meets the entry its key had before the write |
| `NoteVerdicts.RunKept` | src/mnemo_memory/apps/cli/typed_note_judge.py:96-124 | over any run of batches of distinct notes that need judging, the entry of a note without one at first is explained by the asks about it |
| `NoteVerdicts.AsksBounded` | src/mnemo_memory/packages/storage/local_note_verdicts.py:80-93 | over any batches of distinct notes that need judging, for a note without an entry at first: never more than three failed asks in a row; until a verdict may expire, at most three in all and none after an answer |
| `NoteVerdicts.VerdictIsLastAnswer` | src/mnemo_memory/packages/storage/local_note_verdicts.py:112-144 | over any run, a verdict in the cache is the last answer about its note, and an answered note has one until it may expire |
| `NoteVerdicts.BatchBoundIff` | src/mnemo_memory/packages/storage/local_note_verdicts.py:80-93 | asking for a list of notes keeps at most three failed asks in a row about each, whatever the replies, if and only if each note's failed asks so far and its copies in the list are together at most three |
| `NoteVerdicts.CacheBoundIff` | src/mnemo_memory/packages/storage/local_note_verdicts.py:80-144 | the same condition read off the attempts in the cache |
| `NoteVerdicts.DistinctFits` | src/mnemo_memory/packages/storage/local_note_verdicts.py:80-93 | distinct notes that need judging meet it |
| `NoteVerdicts.RepeatedKeyBreaksBound` | src/mnemo_memory/packages/storage/local_note_verdicts.py:50-77 | a list that holds one note twice, failing in two passes, leads to four failed asks in a row |
| `NoteJudge.NoteQueue.Append` | src/mnemo_memory/packages/storage/local_note_judge_queue.py:60-78 | each note once, the newest 256 stay |
| `NoteJudge.AddNewInOrder` | src/mnemo_memory/packages/storage/local_note_judge_queue.py:60-78 | new notes join at the end, each once, in their order |
| `NoteJudge.NoteQueue.Take` | src/mnemo_memory/packages/storage/local_note_judge_queue.py:80-90 | the oldest notes, removed in order |
| `NoteJudge.Read` | src/mnemo_memory/apps/cli/typed_note_judge.py:189-201 | notes are read scope by scope in order of first appearance; an unreadable scope is skipped |
| `NoteJudge.CandidatesHold` | src/mnemo_memory/apps/cli/typed_note_judge.py:189-201 | a note is a candidate exactly when some taken note's scope is read to hold it |
| `NoteJudge.CandidatesBound` | src/mnemo_memory/apps/cli/typed_note_judge.py:189-201 | no more candidates than notes taken |
| `NoteJudge.TwoScopesOneKey` | src/mnemo_memory/packages/storage/local_note_verdicts.py:50-77 | two queued notes of two scopes whose reader serves one text give the same candidate twice: the key leaves out the scope |
| `NoteJudge.TwoScopesBreakBound` | src/mnemo_memory/apps/cli/typed_note_judge.py:161-213 | from a cache without it, two such takes left unanswered make four failed asks, each note needing judging each time |
| `NoteJudge.Judge.JudgeBatch` | src/mnemo_memory/apps/cli/typed_note_judge.py:104-121 | every outcome of a batch but a policy block is recorded in one write, and the tally counts each reply once |
| `NoteJudge.Judge.JudgeCandidates` | src/mnemo_memory/apps/cli/typed_note_judge.py:71-124 | batches until done, blocked or a failed write, for any notes; asked = answered + failed + blocked, the flag is set exactly when something was blocked, and the cache is what the recorded batches made of it |
| `NoteJudge.NeedingIs` | src/mnemo_memory/apps/cli/typed_note_judge.py:204-213 | exactly the candidates without a usable verdict and with fewer than three failures are asked |
| `NoteJudge.Judge.DrainTurn` | src/mnemo_memory/apps/cli/typed_note_judge.py:161-186 | one take is re-read, filtered and judged; no more notes are sent than were taken |
| `NoteJudge.Judge.Drain` | src/mnemo_memory/apps/cli/typed_note_judge.py:161-186 | for any queue and any reader that serves each requested note at most once: at most `limit` notes are sent, fewer than 256 + 4 entries are taken, the loop ends, the tally balances, and it stops early only for a block, a failed store or an empty queue; when no take yields one text twice the batches are a proper run and no stamp lies ahead of the clock, and unless a write fails they hold every ask sent |
| `NoteJudge.Judge.RunNoteJudge` | src/mnemo_memory/apps/cli/typed_note_judge.py:127-158 | without the lock, a guard or a pinned model nothing is read, taken or sent; otherwise the tally is that of the drain, and the cache, the clock and the batches are such that another run can follow in one proper run |
| `NoteJudge.Judge.RunInTurn` | src/mnemo_memory/apps/cli/typed_note_judge.py:127-186 | over any list of background runs, each with its own reader, limit and arrivals, where no take yields one text twice: three failed asks in a row at most about any note the cache did not hold, and three in all and none after an answer while no verdict can have expired; unless a write fails, the batches hold every ask sent |
| `NotePriming.PrimeReplaySeed` | scripts/typed_decision_replay.py:608-625 | answers are counted as given; from a cache without the notes, an unblocked loop shorter than the verdict lifetime leaves nothing to judge and counts each answered note exactly once |
| `FillerNotes.FillerCandidates` | src/mnemo_memory/apps/cli/typed_decision_hook.py:290-333 | the loop with its early break yields the first sixteen eligible notes |
| `FillerNotes.CandidateIs` | src/mnemo_memory/apps/cli/typed_decision_hook.py:309-331 | a candidate is a rendered, fetchable, unpinned note of normal sensitivity outside every conflict, with that note's readable, secret-free text |
| `FillerLaws.CandidateAt` | src/mnemo_memory/apps/cli/typed_decision_hook.py:309-333 | a note is a candidate exactly when it is eligible and fewer than sixteen eligible notes precede it, knowledge first; it then stands right after those |
| `FillerNotes.DropsAre` | src/mnemo_memory/apps/cli/typed_decision_hook.py:352-361 | an id is dropped if and only if a candidate with it has a verdict at or above the bar |
| `FillerNotes.RemovalIs` | src/mnemo_memory/apps/cli/typed_decision_hook.py:397-435 | exactly one omission per removed note, in packet order |
| `FillerNotes.RemovalKeepsValid` | src/mnemo_memory/packages/domain/context_packet.py:528-595 | a removal keeps every check of the packet type: unique ids, provenance, conflicts, budgets and the declared total |
| `FillerNotes.DropsAllRemoved` | src/mnemo_memory/apps/cli/typed_decision_hook.py:352-435 | an item of a packet stays if and only if no candidate with its id has a verdict at or above the bar; removed ones get one omission each, pinned and conflicting notes stay, survivors keep their order |
| `FillerLaws.UnsureStays` | src/mnemo_memory/packages/model_gateway/decision_axes.py:160-163 | a candidate without a verdict, or with one below the bar, stays in the packet |
| `FillerLaws.RemovableInOrder` | src/mnemo_memory/apps/cli/typed_decision_hook.py:407-415 | the removed ids are those asked for, fetchable and in no conflict, in the order of the notes |
| `FillerLaws.PacketTokensAre` | src/mnemo_memory/packages/domain/context_packet.py:528-595 | the computed total is the sum over all items, notices and conflicts, and a valid packet declares it within its budget |
| `FillerNotes.RemovalsCompose` | src/mnemo_memory/apps/cli/typed_decision_hook.py:397-435 | removing A and then B leaves the packet of removing A and B at once, with each omission as often |
| `DeferredPort.DeferredMcpContextPort.InitializedSession` | src/mnemo_memory/apps/mcp/server.py:260-268 | the first call builds, a failed build is retried, a closed port refuses |
| `DeferredPort.DeferredMcpContextPort.RefreshSourceOnce` | src/mnemo_memory/apps/mcp/server.py:271-276 | a refresh completes once; one that raises may be tried again |
| `DeferredPort.DeferredMcpContextPort.Close` | src/mnemo_memory/apps/mcp/server.py:250-258 | the first close takes the session away |
| `DeferredPort.OneSession` | src/mnemo_memory/apps/mcp/server.py:205-276 | under any interleaving at most one session is built, closed at most once and exactly once after a finished close, and a refresh completes at most once |
| `DeferredPort.NothingBuiltAfterClose` | src/mnemo_memory/apps/mcp/server.py:260-268 | nothing is built after a close |
| `DeferredPort.NoCallBeforeRefresh` | src/mnemo_memory/apps/mcp/server.py:216-227 | in every run of calls that need the source none is under way before a refresh has completed |
| `McNemar.DiscordantIsDifference` | scripts/run_long_horizon_evaluation.py:3141-3150 | wins minus losses is the difference of the paired success counts |
| `McNemar.ByKeyIs` | scripts/run_long_horizon_evaluation.py:3136-3140 | each pair of the file has the outcome of its last row |
| `McNemar.PIsShare` | scripts/run_long_horizon_evaluation.py:3152-3156 | p is the share of all win and loss patterns of the discordant pairs that have at least as many wins |
| `McNemar.AnalysisIs` | scripts/run_long_horizon_evaluation.py:3136-3157 | wins and losses number the variants whose outcomes differ and account for the difference in successes; p is the share of patterns, and 1 exactly without wins |
| `McNemar.ExchangedAnalysis` | scripts/run_long_horizon_evaluation.py:3136-3157 | exchanging the arms exchanges wins and losses, and p + p' = 1 + C(n, wins) / 2^n |
| `McNemar.PInRange` | scripts/run_long_horizon_evaluation.py:3152-3156 | p lies in (0, 1] and is 1 exactly when there are no wins |
| `McNemar.PFallsWithWins` | scripts/run_long_horizon_evaluation.py:3152-3156 | for a fixed number of discordant pairs p strictly falls as wins rise |
| `MarkdownHandoff.ScopeAcceptedIff` | scripts/run_markdown_handoff_proof.py:133-139 | for one-line digests and any events, exactly which requested digests a printed handoff is accepted for |
| `MarkdownHandoff.OtherDigestsRejected` | scripts/run_markdown_handoff_proof.py:133-139 | among digests of one length every other one is rejected |
| `MarkdownHandoff.ShorterDigestAccepted` | scripts/run_markdown_handoff_proof.py:133-139 | a concrete shorter digest that is accepted |
| `MarkdownHandoff.RoundTripIff` | scripts/run_markdown_handoff_proof.py:98-145 | reading a printed handoff back gives the warning with the current events and the full history, line ends as text files are read, if and only if the digest does not end in the heading the reader splits at |
| `MarkdownHandoff.SplitIs` | scripts/run_markdown_handoff_proof.py:133-145 | for any text: refused exactly when the scope line does not stand before the first blank line; the views are what stands between the first two headings and from the second on; without them there are none |
| `MarkdownHandoff.EventLineShows` | scripts/run_markdown_handoff_proof.py:98-101 | an event line shows its key twice and its summary once, in fixed words |
| `MarkdownHandoff.EventsShow` | scripts/run_markdown_handoff_proof.py:98-101 | every event has its line, in order |
| `MarkdownHandoff.HistoryShows` | scripts/run_markdown_handoff_proof.py:104-116 | every revision has its heading with its number and its events, in order |
| `MarkdownHandoff.RevisionIsPlain` | scripts/run_markdown_handoff_proof.py:118-121 | the revision line shows the revision as a number, and no heading |
| `TextSearch.FindLineEnd` | scripts/run_markdown_handoff_proof.py:136-142 | a line-ending pattern is first found at the end of the first line that ends in it |
| `TextSearch.FindBreak` | scripts/run_markdown_handoff_proof.py:138-142 | a pattern that starts with a newline is first found at a line break |
| `TextSearch.FindIs` | scripts/run_markdown_handoff_proof.py:136-142 | a pattern is found at the first place where it stands, if it stands anywhere |
| `TextSearch.ReadLineEnd` | scripts/run_markdown_handoff_proof.py:136 | every line end of a text file is read as a newline |

## Left out

- Files, fsync, JSON, SHA-256, regular expressions, HTTP, subprocesses, SQL and asyncio: logs, maps, tokens and opaque keys stand for them.
- Torn journal writes, two writers on one run directory, and exceptions that are not `Exception` inside a connect.
- `_validate_completed_live_run`: a finished directory is a flag; the manifest and artifact digests are not modelled.
- `run_offline_evaluation`: its resume loop is the live one without provider rows, and its failure row adds nothing hard.
- `provider_call_accounting`: a count over journal rows; `ReturnedRunPaidExactly` already fixes what it counts.
- `_generate_frontier_candidate`: one direct call with no state; only what the session loop relies on is stated, as `Trajectory.Proper`.
- Prompt wording, report rendering, Brier scores, concept precision and recall, and the verdict ladders of the evaluations.
- White space beyond Latin-1 in a repair step, and JSON keys of a review other than the four it must have.
- Lists, floats and nested objects as configuration values; values are text, integers, booleans and null.
- The pattern a lesson field's name must match when a memory is saved: field names are opaque.
- Size limits of the verdict cache (5,000 entries, 1 MB) and corrupt cache or queue files; eviction would forget attempts.
- The order of items across packet sections: sections are kept apart, and only their own order is stated.
- Provider identity against the configured advisor, which the session loop checks after a candidate is made.
- Use of a deferred session or of a pooled wrapper after it was closed: the code does not prevent it, so nothing is claimed.
- MCP tool schemas, the FastAPI app, dashboards, command-line entry points and release verification.
- NoteJudge.Judge.RunInTurn: an ask whose outcome could not be written is forgotten by the code, so with a failing cache the three-ask bound speaks of recorded asks only.
- MarkdownHandoff.RoundTripIff: for current events whose keys and summaries are single lines; the history may hold any text.
- FrontierBudget.OpenAiSpendWithinLimit: speaks of recorded spend, since a send that raises records nothing.
- ConnectionPool.PostgresConnectionPool.Acquire: one caller alone; waiting among many callers is `PoolProtocol`.
