# Verification of the turn, scenario and authoring cores

A Dafny model of the parts of the game server whose correctness depends on many functions or many
workers at once, with proofs over every input and every run:

- **Proposals** (`Paths`, `SortedKeys`, `JsonValues`, `Patch`, `Differences`, `RoundTrip`, `Proposals`,
  `ProposalLaws`, `Expansion`, `AdoptionOrder`, `WrittenDifference`, `Acceptance`, `RowOrder`,
  `FixedSelections`, `Exposure`, `SelectionLaws`, `AliasWitness`): a model's output is turned into a
  field-level difference whose rows are addressed by entity ref, guarded by policies, replayed into a
  candidate and later adopted change by change. The proofs treat it as a patch algebra: printing and
  parsing, frame and round-trip laws, and from them that preparing and adopting always agree, that the
  order of adoption does not matter, and exactly when every selection passes.
- **Scenario runs** (`Scenarios`, `Explorer`, `Progressor`, `Agreement`, `Gates`, `RunCommits`,
  `OpenAnswers`): the bounded exploration of (scene, flags) states is proved against plain graph
  reachability, that graph against the saved runs the progressor really produces, and both against the
  flag lists of the actions themselves.
- **Turns** (`Turns`, `TurnProtocol`, `TurnLaws`, `TurnAnswers`, `TurnRecovery`): the repository's
  operations as atomic steps on rows with epochs, leases, deadlines, attempts and a call budget. One
  inductive invariant covers all interleavings of players, resolution workers, narration workers, crashes
  and clock ticks; from every state of it an open turn can be closed.
- **Authoring jobs** (`References`, `Jobs`, `JobProtocol`, `JobLaws`, `JobAnswers`, `DraftLaws`): the
  fenced job queue with expiry, cancellation and one physical request per job, the draft revisions it
  works on, whose missing refs are filled in, and the proposals it applies.
- **Publishing** (`Publishing`, `PublishAnswers`): validation, playtests and releases of one story, where
  only the last step holds the story's lock.
- **Action resolution** (`Resolution`, `ResolutionLaws`, `Mechanics`, `RuleLaws`, `AssemblyLaws`,
  `ProjectionAnswers`, `CommittedBundles`): the worker that produces results, an enemy reaction and a
  predicted version from draws of the dice, against the independent projection that derives and checks
  them again, and the turn that commits them.
- **Campaigns** (`Campaigns`): the run and the canonical store along one history of committed turns.

The modules named `...Answers`, and `Acceptance`, `DraftLaws`, `Gates` and `RuleLaws`, state what each
operation answers and leaves behind on the rows, flags, paths and draws themselves, without the
predicates the operations share.

Methods with loops and classes with fields follow the code that works step by step; each is tied to a
specification function, and the laws are proved about that function. `dafny verify dfyconfig.toml`
checks everything. Lemmas for which Dafny would assume an induction hypothesis of its own carry
`{:induction false}`, recursive or not: for a parameter that is a sequence of datatype values, that
hypothesis also speaks of sequences with other elements and can contradict the lemma's other facts.

What the proofs found about the code:

- A fixed path that enters a collection through a ref field other than the collection's own one is not
  framed by writes. A proposal can be prepared and adopted as a whole while one selection of its changes
  is refused (`AliasWitness.SharedRefSplits`, and `AliasWitness.SomeProposalSplits` for one draft written
  out). `SelectionLaws.SelectionsPass` says exactly when: some fixed path is movable. One that
  reads something is movable if a single change moves it; one that reads nothing is movable if it is
  readable (`Exposure.ReadableExact`): after one change, or through one row that bears the ref as it is
  or after one change and below which the rest is readable, while each other row is passed over as it
  is or after one change. Neither test looks at selections, and paths on the collections' own ref fields
  are never movable.
- An effect that names a new flag twice is legal in a definition and in an open action, is progressed,
  and is then refused by the key of the flags table (`RunCommits.RepeatedFlagIsRefused`).
  `RunCommits.RegisteredCommit` and `RunCommits.OpenCommit` state the acceptance as an equivalence.
- The projection rejects an assembled bundle in exactly one case: the acting character is itself the
  configured enemy of a combat under way (`AssemblyLaws.ProducerAndCheckerAgree`). Created adventures give
  the player a hero of kind pc, which `AssemblyLaws.HeroIsAccepted` covers; the authorization of turns
  would also let a controlled npc act, and `AssemblyLaws.PlayedNpcIsRejected` is such a turn.
- The turn table's check that a narrative turn has made at most one call is not kept by the database
  operations alone (`TurnLaws.ReservingBeforeRouting`); it holds because a worker records the route
  before it reserves a call.
- Differences between explorer and runtime that `Agreement.Predictable` and `Agreement.Committable` leave
  outside: the explorer adds a combat scene's started flag, it drops goal-flag effects outside the goal
  scene which the progressor does not, and the commit refuses repeated flags, a move to the current
  scene and, under mvp_v1, a move to a closed scene.

## Model

| member | source | states |
|---|---|---|
| Paths.ParsePrint | src/ai_rpg/application/story_jobs.py:94-104 | a path of named segments parses back from its printed form; a path with an empty segment is rejected |
| Paths.PrintParse | src/ai_rpg/application/story_jobs.py:94-104 | every accepted path text is the printed form of what it parses to, so printing and parsing are inverse both ways |
| Paths.OverlapIsComparable | src/ai_rpg/application/story_jobs.py:191-192 | the textual prefix test of two paths holds exactly when one list of segments is a prefix of the other |
| JsonValues.SeeArr | src/ai_rpg/application/story_jobs.py:118-130 | a row segment resolves to a row exactly when it is the only row with that ref, to the end when there is none, and fails otherwise |
| Patch.Read | src/ai_rpg/application/story_jobs.py:133-140 | the reading loop returns what the path function reads, nothing when any segment fails |
| Patch.ReadAfterWrite | src/ai_rpg/application/story_jobs.py:133-168 | a successful write makes the path read the written value, a removal makes it absent |
| Patch.Frame | src/ai_rpg/application/story_jobs.py:143-168 | a write leaves unchanged what every non-comparable aligned path reads and whether a later write through it succeeds |
| Patch.PathSurvives | src/ai_rpg/application/story_jobs.py:143-168 | a write below or beside a path never makes that path disappear |
| Differences.DiffExact | src/ai_rpg/application/story_jobs.py:218-245 | every difference entry carries exactly the two sides' values at its path, lies below ref-keyed collections only, and the entries are pairwise non-comparable |
| Differences.DiffFinest | src/ai_rpg/application/story_jobs.py:218-245 | no entry sets a whole object, or a whole keyed collection, against another one: differences go as deep as they can |
| RoundTrip.EmptyIsSame | src/ai_rpg/application/story_jobs.py:218-245 | the difference is empty exactly when the values are equal up to row order in ref-keyed collections |
| RoundTrip.RoundTripAt | src/ai_rpg/application/story_jobs.py:143-168 | replaying a difference never fails, reaches the other value up to row order, and leaves an empty difference |
| WrittenDifference.DiffOfWrite | src/ai_rpg/application/story_jobs.py:218-245 | the difference that one write of a value as a whole makes, below keyed collections, is exactly that one entry |
| Expansion.FullyAcceptedReachesModel | src/ai_rpg/application/story_jobs.py:283-330 | a generated change of which nothing is held back turns the candidate into the model's value up to row order |
| Proposals.BindPolicyPath | src/ai_rpg/application/story_jobs.py:171-188 | the binding loop replaces list positions by entity refs and stops at rows that are no entity |
| Proposals.CollectPolicies | src/ai_rpg/application/story_jobs.py:195-203 | the collecting loop computes the strongest-policy map |
| Expansion.BindingKeepsTarget | src/ai_rpg/application/story_jobs.py:171-188 | a bound policy path that reads anything reads the value its list positions named |
| Expansion.BindingStep | src/ai_rpg/application/story_jobs.py:176-187 | a position in a collection is bound to the row's ref, the policy stops where there is no row or no ref, and any other segment is kept |
| Expansion.StrongestPolicyWins | src/ai_rpg/application/story_jobs.py:195-203 | a path is fixed exactly when some binding of it, in any spelling and order, is fixed; undecided only when none is fixed |
| Proposals.PrepareProposal | src/ai_rpg/application/story_jobs.py:248-362 | the preparing loops compute the proposal and the validated candidate, or the first error |
| Proposals.AdoptChanges | src/ai_rpg/application/story_jobs.py:365-397 | the adopting loop computes the adopted draft or the first error |
| ProposalLaws.PreparedBuilt | src/ai_rpg/application/story_jobs.py:283-353 | every prepared proposal is a chain of permitted, ready, pairwise non-overlapping changes that leads from the base to the candidate and keeps every fixed path |
| ProposalLaws.AdoptAllYieldsCandidate | src/ai_rpg/application/story_jobs.py:365-397 | adopting all changes of a prepared proposal passes every before, policy and fixed check and yields exactly the validated candidate |
| ProposalLaws.SelectionReads | src/ai_rpg/application/story_jobs.py:365-391 | after adopting any selection, selected paths read as proposed and all others as in the base |
| Acceptance.OpenIsWritable | src/ai_rpg/application/story_jobs.py:206-215 | a path may be written by a model exactly if it has two or more segments, starts with metadata or scenario, and none of the others is an identifier or the ref field of the row before it |
| Acceptance.ExpandAnswer | src/ai_rpg/application/story_jobs.py:283-300 | a generated change is rejected as a whole exactly in a check, or if its path is neither open nor one of the two containers; otherwise it expands to the difference it makes |
| Acceptance.RejectAnswer | src/ai_rpg/application/story_jobs.py:287-296 | a rejected change leaves exactly one protected-field finding and nothing else |
| Acceptance.EntryAnswer | src/ai_rpg/application/story_jobs.py:300-347 | an entry becomes the one change that carries its path, both values, the reason and the policy exactly if its path is open, no fixed path touches it and writing it moves none; otherwise it leaves one fixed-field finding |
| Acceptance.WriteAnswer | src/ai_rpg/application/story_jobs.py:283-347 | from any state of the preparation, a generated write of one value below keyed collections becomes exactly one change with its before and after, or exactly one finding, on the same condition |
| Acceptance.PrepareAnswer | src/ai_rpg/application/story_jobs.py:248-362 | the proposal prepared from one such write has exactly that change and no new finding, or no change and one finding, and the draft is the validated document with or without it |
| Acceptance.SieveAnswer | src/ai_rpg/application/story_jobs.py:300-347 | of a difference, the entries whose path is open and touches no fixed path become one change each, and the others one finding each, in order, when fixed paths enter collections by their own refs |
| Acceptance.GeneratedAnswer | src/ai_rpg/application/story_jobs.py:283-347 | so is a whole generated change for an open path or a container: its changes are entries of the difference it makes |
| Acceptance.ContainerAnswer | src/ai_rpg/application/story_jobs.py:284-300 | the difference of a replaced container is the one of its two values, below its name |
| Acceptance.CheckAnswer | src/ai_rpg/application/story_jobs.py:287-296 | a check takes over nothing and leaves one finding for each generated change |
| Acceptance.SchemaAnswer | src/ai_rpg/application/story_jobs.py:263-282 | making a draft concrete records and writes schema version 2 exactly if it has none and no fixed path touches it |
| Acceptance.AdoptAnswer | src/ai_rpg/application/story_jobs.py:371-391 | a change is refused for a path that is not open or that a fixed one touches, then for a value that is not the one it was made from, and is written otherwise |
| Acceptance.SelectionAnswer | src/ai_rpg/application/story_jobs.py:365-397 | adopting answers an unknown change first, then what the loop answers, then a moved fixed path, then the draft model's refusal |
| AdoptionOrder.AnyOrderSame | src/ai_rpg/application/story_jobs.py:345-351 | writing ready, non-overlapping changes below keyed collections succeeds in every order, and all orders give the same document up to the order of collection rows |
| AdoptionOrder.AdoptionOrderIsFree | src/ai_rpg/application/story_jobs.py:345-391 | whatever order the changes of a prepared proposal are in, every selection of them is adopted without a conflict and leads to the same payload up to the order of collection rows |
| AdoptionOrder.UnkeyedOrderMatters | src/ai_rpg/application/story_jobs.py:226-243 | in a collection with a row that carries no ref, which no difference enters, the order of two appends does show |
| RowOrder.BaseRowsComeFirst | src/ai_rpg/application/story_jobs.py:143-168 | after any selection in any order, the base's rows that stay in a collection come first and in the order they had, so orders differ in the place of new rows only |
| FixedSelections.SingleSuffices | src/ai_rpg/application/story_jobs.py:371-392 | a path that reads something and reads something else after a selection does so already after one of its changes alone, however unaligned it is |
| Exposure.ExposedByRows | src/ai_rpg/application/story_jobs.py:371-392 | a path through another ref field of a collection can be brought to read something by a selection exactly if one row can be made to show it and every other row, by itself and by at most one change, be passed over |
| Exposure.RowExact | src/ai_rpg/application/story_jobs.py:118-140 | a row can be read through a ref segment under some selection exactly if it can by its parts: as a whole with at most one change, or by its ref with at most one change and by what is readable below it |
| Exposure.ReadableExact | src/ai_rpg/application/story_jobs.py:371-392 | any path reads something under some selection exactly if it does as it is, after one change, or through one row of the collection it enters by a ref, recursively and without a look at selections |
| SelectionLaws.MovedIsMovable | src/ai_rpg/application/story_jobs.py:371-392 | any path is moved by some selection exactly if it is movable: by a single change when it reads something, readable when it reads nothing |
| SelectionLaws.SelectionsPass | src/ai_rpg/application/story_jobs.py:320-392 | some selection of a prepared proposal is refused for a fixed path exactly if a fixed path is movable by its changes |
| SelectionLaws.SelectionAnswers | src/ai_rpg/application/story_jobs.py:365-397 | a selection is adopted, refused by the draft model, or refused for a fixed path, and the last only if some fixed path is movable |
| SelectionLaws.SelectionAdopts | src/ai_rpg/application/story_jobs.py:345-397 | any selection of a prepared proposal runs through the adopting loop, selected paths read as proposed and all others as in the base; unless a fixed path is movable only the draft model can refuse it |
| SelectionLaws.AlignedFixedStays | src/ai_rpg/application/story_jobs.py:371-392 | no fixed path aligned to the collections' own ref keys is ever movable |
| AliasWitness.WholeButNotPart | src/ai_rpg/application/story_jobs.py:248-397 | a proposal of two changes that is prepared and adopted as a whole, while selecting the second change alone is refused for the fixed path |
| AliasWitness.SharedRefSplits | src/ai_rpg/application/story_jobs.py:111-130 | the drafts for it: two scenes share a second ref, the title behind that ref is fixed, one change removes the title and the other moves the first scene's ref away |
| AliasWitness.SomeProposalSplits | src/ai_rpg/application/story_jobs.py:320-392 | one such draft with a draft model that takes everything: prepared, adopted as a whole, and refused for its second change alone |
| ProposalLaws.SelectionKeepsRows | src/ai_rpg/application/story_jobs.py:365-397 | no selection loses or renames a path or entity row of the base unless a selected change is at or above it |
| ProposalLaws.AdoptionProtects | src/ai_rpg/application/story_jobs.py:299-396 | whatever changes are offered, an adopted payload keeps notes, policies, scenario reference and version, and reads every fixed path as before |
| Scenarios.ValidClosed | src/ai_rpg/scenarios/models.py:187-284 | in a valid graph every move leads to a scene of the definition |
| Explorer.Forward | src/ai_rpg/application/stories.py:328-400 | the bounded breadth-first search finds only reachable states, stays in its budget, and covers all outcomes of all states when it ends within it |
| Explorer.WinningStates | src/ai_rpg/application/stories.py:420-425 | the backward worklist is closed under recorded moves and contains only states that can end |
| Explorer.Explore | src/ai_rpg/application/stories.py:320-449 | out of budget exactly when more states are reachable than may be stored; otherwise scenes and endings are exactly the reachable ones and the dead-end finding is exact |
| Explorer.SeenIsReachable | src/ai_rpg/application/stories.py:351-400 | a complete search has seen exactly the states reachable from the start |
| Explorer.WinningIsWinnable | src/ai_rpg/application/stories.py:420-430 | the winning set is exactly the seen states with a path to an ending |
| Explorer.DeadExact | src/ai_rpg/application/stories.py:426-440 | no ending or a seen state that cannot win, exactly when the story has a dead end |
| Gates.BindAnswer | src/ai_rpg/application/scenarios.py:158-165 | in a run, a reference is bound to an action exactly if the active scene holds it under that reference, the run holds each flag it requires and none of those that disable it |
| Gates.OverBindsNothing | src/ai_rpg/application/scenarios.py:158-165 | a run that is over binds nothing |
| Gates.LeadsAnswer | src/ai_rpg/application/stories.py:355-400 | the outcomes of a state are exactly those of the effects of its scene's actions whose required flags are held and whose disabling flags are not: the ending named by the first held override or by the effect, if deserved, or the scene and the flags it leads to |
| Gates.StepsAnswer | src/ai_rpg/application/stories.py:355-400 | every step of a run of the graph is such an effect of such an action |
| Gates.GateLaw | src/ai_rpg/application/stories.py:355-357 | a state from which every action that can end the story requires a flag no effect gives, or is disabled by one that is held, can never win, and no state after it ends the story |
| Gates.GatedStory | src/ai_rpg/application/stories.py:423-440 | a story gated from its start has no obtainable ending, which is the dead end a complete exploration reports |
| Gates.GatedStateIsDeadEnd | src/ai_rpg/application/stories.py:423-440 | a reachable gated state is such a dead end as well |
| Gates.EffectAnswer | src/ai_rpg/application/scenarios.py:282-311 | an effect changes the run exactly if no world guards one of its flags and the ending it names is deserved, and then leaves its flags, that ending, the elapsed action and the scene it leads to |
| Gates.RollAnswer | src/ai_rpg/application/scenarios.py:258-312 | success, failure and defeat each pick their own effect of the action, and a roll that picks none leaves the run as it is |
| Agreement.EffectAgrees | src/ai_rpg/application/scenarios.py:258-312 | for schema 2 without world and combat the runtime's verdict and update for an effect are the explorer's outcome |
| Agreement.SuccessorsAgree | src/ai_rpg/application/scenarios.py:158-165 | the explorer's successors of a run's state are exactly the outcomes of binding and progressing over all rolls |
| Agreement.PlayedIsReachable | src/ai_rpg/application/scenarios.py:409-434 | every saved run is well formed and, while active, in a state the explorer's graph reaches |
| Agreement.ReachableIsPlayed | src/ai_rpg/application/scenarios.py:258-312 | every state of the explorer's graph is the state of some saved run |
| Agreement.FinishableIsWinnable | src/ai_rpg/application/scenarios.py:258-312 | a saved run can be finished exactly when its state can win |
| Agreement.DeadEndIsStuckRun | src/ai_rpg/application/stories.py:426-440 | the dead-end condition holds exactly when some saved run can never be finished |
| Agreement.ExploreStory | src/ai_rpg/application/stories.py:284-288 | a complete exploration reports an error exactly when some saved run can get stuck |
| RunCommits.RegisteredCommit | src/ai_rpg/infrastructure/postgres/repositories.py:1246-1338 | an update of a registered action is accepted exactly if its destination is another scene, under mvp_v1 a planned one, and its effect names no new flag twice |
| RunCommits.OpenCommit | src/ai_rpg/application/scenarios.py:314-407 | an update of an open action is accepted exactly if its effect names no new flag twice; it advances the time by one and keeps fact references distinct |
| Gates.CommitAnswer | src/ai_rpg/infrastructure/postgres/repositories.py:1243-1345 | an update, however it was made, is accepted exactly if it leaves the turn's active scene for one that may be entered, ends the run or stays, adds only new flags and facts, and keeps time, alert and facts within the ruleset's bounds |
| OpenAnswers.AdmitsAnswer | src/ai_rpg/application/scenarios.py:333-398 | a run admits an open effect exactly if its flags are ones the scene opens, its ending is deserved and no defeat, its destination is an open one and each fact may be told |
| OpenAnswers.OpenAnswer | src/ai_rpg/application/scenarios.py:314-407 | an open action updates the run exactly if the story is open, the approach possible, the target known and here and the effect admitted; it then leaves the flags, the ending, the alert moved by its delta within 0..5, one more action of time and the new facts |
| OpenAnswers.OpenMove | src/ai_rpg/application/scenarios.py:360-407 | afterwards the run is in the scene the effect names, or where it was |
| RunCommits.RepeatedFlagIsRefused | migrations/versions/0009_scenario_progress.py:27-32 | a valid story and a new run whose update, of a registered and of an open action, is refused for nothing but a flag named twice |
| Progressor.FreshKeepsRepeats | src/ai_rpg/application/scenarios.py:304-312 | dropping the flags already held leaves distinct ones exactly if no new flag was named twice |
| Progressor.AcceptedIsProper | src/ai_rpg/infrastructure/postgres/repositories.py:1420-1493 | whatever the commit accepts keeps a run well formed: active exactly when one scene is, ended exactly when not active, alert in 0..5 |
| RunCommits.CommitsKeep | src/ai_rpg/infrastructure/postgres/repositories.py:1246-1493 | over any run of commits flags and facts only grow, fact references stay distinct and an mvp_v1 run never goes back to a scene it left |
| Agreement.PlayIsCommitted | src/ai_rpg/infrastructure/postgres/repositories.py:1246-1338 | in an mvp_v2 story whose effects name neither their own scene nor a flag twice, the commit accepts every step of every play, so the saved runs of the prediction are committed ones |
| Turns.TurnRepository.AcceptPending | src/ai_rpg/infrastructure/postgres/repositories.py:627-791 | adds a pending turn exactly when none is open and the expected version is current |
| Turns.TurnRepository.AcquireLease | src/ai_rpg/infrastructure/postgres/repositories.py:793-877 | leases the oldest claimable turn under a new epoch, counting an attempt unless it is a cleanup |
| Turns.TurnRepository.RecordInitialRoute | src/ai_rpg/infrastructure/postgres/repositories.py:1029-1071 | records a route once, for the current lease only |
| Turns.TurnRepository.PromoteToMechanical | src/ai_rpg/infrastructure/postgres/repositories.py:1073-1086 | turns a narrative route mechanical for the current lease only |
| Turns.TurnRepository.ReserveCall | src/ai_rpg/infrastructure/postgres/repositories.py:1860-1924 | raises the call count and the ledger together, rolled back to the savepoint when the ledger refuses or the lease or deadline passes meanwhile |
| Turns.TurnRepository.RecordTurnFailure | src/ai_rpg/infrastructure/postgres/repositories.py:1926-2036 | retries while attempts, deadline and calls allow, otherwise fails the resolution or leaves the narration leased |
| Turns.TurnRepository.CloseNotApplied | src/ai_rpg/infrastructure/postgres/repositories.py:1140-1207 | closes the turn unapplied with its one narration event |
| Turns.TurnRepository.Commit | src/ai_rpg/infrastructure/postgres/repositories.py:1209-1602 | commits a resolution under a current lease at an unchanged version, or answers the version committed before |
| Turns.TurnRepository.CommitNarration | src/ai_rpg/infrastructure/postgres/repositories.py:1604-1713 | commits and narrates a narrative turn in one step |
| Turns.TurnRepository.AcquireNarrationLease | src/ai_rpg/infrastructure/postgres/repositories.py:2048-2141 | leases the narration of a resolved turn |
| Turns.TurnRepository.SaveConditionally | src/ai_rpg/infrastructure/postgres/repositories.py:2176-2297 | saves a narration for the current epoch and lease; a fallback may be late for the deadline |
| TurnProtocol.StepKeeps | src/ai_rpg/infrastructure/postgres/repositories.py:627-2297 | every step of every worker, in any interleaving with clock ticks and crashes, keeps the invariant of rows, version lineage, event log, ledger and worker knowledge |
| TurnLaws.AlwaysInvariant | src/ai_rpg/infrastructure/postgres/repositories.py:627-2297 | the invariant holds in every state of every run |
| TurnLaws.OpenTurnIsCurrent | src/ai_rpg/infrastructure/postgres/repositories.py:671-692 | at most one turn is open, and an unresolved turn was accepted at the campaign's current version |
| TurnLaws.NoVersionConflict | src/ai_rpg/infrastructure/postgres/repositories.py:1339-1341 | no commit of a worker ever finds the campaign's version moved on |
| TurnLaws.AlwaysEvolves | src/ai_rpg/infrastructure/postgres/repositories.py:1155-1159 | terminal statuses, committed versions and results never change; epochs, calls and the log only grow; closed turns stay as they are |
| TurnLaws.FencedResolution | src/ai_rpg/infrastructure/postgres/repositories.py:304-332 | a resolution worker with an old epoch or a lapsed lease changes nothing by any operation |
| TurnLaws.FencedNarration | src/ai_rpg/infrastructure/postgres/repositories.py:2200-2229 | a narration worker with an old epoch or a lapsed lease changes nothing |
| TurnLaws.ClaimFencesForever | src/ai_rpg/infrastructure/postgres/repositories.py:838-848 | a claim fences every earlier worker of the turn for the rest of the run |
| TurnLaws.NarrationClaimFencesForever | src/ai_rpg/infrastructure/postgres/repositories.py:2048-2141 | a narration claim fences every earlier narrator of the turn for the rest of the run |
| TurnLaws.StaleWorkIsInert | src/ai_rpg/infrastructure/postgres/repositories.py:1239-1245 | once a turn has been claimed again, no step under an earlier epoch changes the store, at any later time, failures and closings included |
| TurnLaws.SupersededWorker | src/ai_rpg/infrastructure/postgres/repositories.py:1239-1245 | a worker that read a turn before it was claimed again, and has not stopped, changes nothing at any later time |
| TurnLaws.SupersededNarrator | src/ai_rpg/infrastructure/postgres/repositories.py:2200-2229 | the same for a narration worker that read its input before the turn was claimed again |
| TurnLaws.StaleNarrationIsInert | src/ai_rpg/infrastructure/postgres/repositories.py:2200-2229 | the same for narration: once claimed again, no reservation, failure or saved text under an earlier epoch changes anything |
| TurnLaws.ReplayedCommit | src/ai_rpg/infrastructure/postgres/repositories.py:1239-1240 | a replayed commit answers the version committed first and changes nothing, at any later time |
| TurnAnswers.CommitAnswer | src/ai_rpg/infrastructure/postgres/repositories.py:1494-1516 | a first commit succeeds exactly for a worker in good standing with a valid bundle of the current version; store, turn and reply then have the old version plus one if the bundle changes the canonical state, and the old version otherwise |
| TurnAnswers.NarrativeAnswer | src/ai_rpg/infrastructure/postgres/repositories.py:1604-1710 | a narrative turn is committed and told with the text given, and never raises the version |
| TurnAnswers.NotAppliedAnswer | src/ai_rpg/infrastructure/postgres/repositories.py:1140-1207 | closing unapplied succeeds exactly in good standing and stores the text given |
| TurnAnswers.SaveAnswer | src/ai_rpg/infrastructure/postgres/repositories.py:2176-2297 | a narration is stored with the text given exactly under the current lease, in time unless it is a fallback, and is marked as one exactly then |
| TurnAnswers.FailureAnswer | src/ai_rpg/infrastructure/postgres/repositories.py:1926-2036 | a recorded failure is retried exactly if attempts, time and calls are left, and is final otherwise |
| TurnAnswers.NarrationFailureAnswer | src/ai_rpg/infrastructure/postgres/repositories.py:1926-2036 | the same for a narration, which keeps its lease over a final failure |
| TurnAnswers.RetriedIsClaimed | src/ai_rpg/infrastructure/postgres/repositories.py:793-877 | a turn that is to be retried is handed to the next worker as a further attempt |
| TurnAnswers.RetriedIsNarrated | src/ai_rpg/infrastructure/postgres/repositories.py:2048-2141 | so is its narration |
| TurnAnswers.AcceptAnswer | src/ai_rpg/infrastructure/postgres/repositories.py:627-791 | a turn is accepted exactly if all others are over and the version is current, as a fresh pending row |
| TurnAnswers.ClaimAnswer | src/ai_rpg/infrastructure/postgres/repositories.py:793-877 | the oldest turn that is due is leased: a new epoch, a full lease, an attempt more unless it is a cleanup, and a deadline that is set once |
| TurnAnswers.NoClaimAnswer | src/ai_rpg/infrastructure/postgres/repositories.py:793-877 | nothing is claimed when no turn is due |
| TurnAnswers.NarrationClaimAnswer | src/ai_rpg/infrastructure/postgres/repositories.py:2048-2141 | the same for narrations of resolved turns |
| TurnAnswers.RouteAnswer | src/ai_rpg/infrastructure/postgres/repositories.py:1029-1071 | a routing is recorded exactly for the current lease and only if it is the first or the same, and sets the route unless there is one |
| TurnAnswers.PromoteAnswer | src/ai_rpg/infrastructure/postgres/repositories.py:1073-1086 | exactly a narrative route under the current lease turns mechanical |
| TurnAnswers.ReserveAnswer | src/ai_rpg/infrastructure/postgres/repositories.py:1860-1924 | a call is reserved exactly for a worker that is in good standing after waiting, while the turn has one left and the ledger lets it through or knows it |
| TurnAnswers.VersionCounts | src/ai_rpg/infrastructure/postgres/repositories.py:1494-1500 | in every run the version is the initial one plus the number of first commits of bundles that changed the canonical state |
| TurnAnswers.VersionIsRaised | src/ai_rpg/infrastructure/postgres/repositories.py:1494-1500 | in every state of every run the version is the initial one plus the number of turns committed one above their start |
| TurnAnswers.ToldForever | src/ai_rpg/infrastructure/postgres/repositories.py:2176-2297 | a text that a step told is the turn's text in every later state |
| TurnLaws.RouteAfterCalls | src/ai_rpg/infrastructure/postgres/repositories.py:1029-1071 | recording a route breaks the one-call check of narrative turns exactly when a narrative route comes after two calls |
| TurnLaws.ReservingBeforeRouting | src/ai_rpg/infrastructure/postgres/repositories.py:1892-1901 | a concrete run of database operations that breaks it, which needs a worker reserving before it routes |
| TurnLaws.CallsAreBudgeted | src/ai_rpg/application/workers.py:138-153 | in every run of workers calls stay within the budget, at most one while narrative, and ledger keys are exactly 1..calls |
| TurnLaws.EventLog | src/ai_rpg/infrastructure/postgres/repositories.py:1167-1206 | event sequences are exactly 1..n, never rewritten, with one narration event for a narrated turn and none otherwise |
| TurnLaws.VersionsHandedOn | src/ai_rpg/infrastructure/postgres/repositories.py:1494-1500 | each turn starts from the version the one before it left, at most one above its own start |
| TurnLaws.ClaimIsEnabled | src/ai_rpg/infrastructure/postgres/repositories.py:804-858 | once the clock has passed its lease an open turn can be claimed for its phase |
| TurnLaws.AttemptsAreLimited | src/ai_rpg/infrastructure/postgres/repositories.py:840-842 | claims that are not cleanups are counted and never exceed the limit of their phase |
| TurnLaws.ResolutionCleanupCloses | src/ai_rpg/application/workers.py:995-1057 | a terminal cleanup of a resolution, run to completion within its leases, closes the turn |
| TurnLaws.UnauthorizedCleanup | src/ai_rpg/application/workers.py:1014-1026 | a cleanup for an actor without authorization closes the turn, or is late and leaves it to the recorded failure |
| TurnLaws.NarrationCleanupCloses | src/ai_rpg/application/workers.py:1687-1721 | a terminal cleanup of a narration closes the turn without touching its resolution |
| TurnRecovery.NoTurnIsStuck | src/ai_rpg/application/workers.py:1625-1645 | from every state of the invariant an open turn of a story that is not blocked is closed by at most seven steps, each of them what the workers do: wait, claim, record the failure of a terminal cleanup, and save a fallback after a terminal failure or when there is nothing to narrate |
| TurnRecovery.EveryRunCloses | src/ai_rpg/application/workers.py:1687-1721 | every run of the protocol, wherever its workers crashed, can be continued by such steps to one that has closed the turn |
| Jobs.JobStore.EnqueueJob | src/ai_rpg/infrastructure/postgres/story_jobs.py:129-194 | queues a job on the current draft revision within the owner's limit, with an approved outline only if it still matches |
| Jobs.JobStore.ClaimJob | src/ai_rpg/infrastructure/postgres/story_jobs.py:301-373 | ends expired leases, then leases the oldest queued job below the running limit |
| Jobs.JobStore.Reserve | src/ai_rpg/infrastructure/postgres/story_jobs.py:391-413 | reserves the one physical request of the current lease, unless the lease lapses while the usage lock is awaited |
| Jobs.JobStore.AccountUsage | src/ai_rpg/infrastructure/postgres/story_jobs.py:415-433 | accounting only, for attempts that reserved a request |
| Jobs.JobStore.SucceedJob | src/ai_rpg/infrastructure/postgres/story_jobs.py:435-465 | stores a result for the current lease after a reserved request |
| Jobs.JobStore.FailJob | src/ai_rpg/infrastructure/postgres/story_jobs.py:467-481 | fails the job of the current lease |
| Jobs.JobStore.CancelJob | src/ai_rpg/infrastructure/postgres/story_jobs.py:216-227 | cancels an active job and fences its lease |
| Jobs.JobStore.ReviseOutline | src/ai_rpg/infrastructure/postgres/story_jobs.py:229-264 | edits or approves the outline at its expected revision |
| Jobs.JobStore.SaveDraft | src/ai_rpg/infrastructure/postgres/stories.py:386-397 | stores a new revision at the expected one |
| Jobs.JobStore.RestoreDraft | src/ai_rpg/infrastructure/postgres/stories.py:459-480 | stores an earlier revision's payload as the next one |
| References.AssignMissingRefs | src/ai_rpg/application/stories.py:204-229 | the loops fill in the refs group by group, in the order in which they are drawn |
| References.FillCompletes | src/ai_rpg/application/stories.py:204-229 | after filling in, no row of the draft's collections lacks its ref; a draft is changed exactly if one does; fields without collections stay |
| References.FillTwice | src/ai_rpg/application/stories.py:204-205 | filling in a second time changes nothing, whatever refs are drawn |
| References.FillNames | src/ai_rpg/application/stories.py:208-224 | after filling in, every row of scenes, flags, endings, actions, characters, items and protected facts bears the ref of its own kind |
| References.FillKeeps | src/ai_rpg/application/stories.py:204-229 | every value of the draft stays at its place; only refs are added, and only to rows without one |
| References.FilledIsKeyed | src/ai_rpg/application/stories.py:225-228 | with fresh refs, the rows of a filled collection are told apart by their refs exactly if all are objects and the given refs are well formed and distinct |
| Jobs.JobStore.ReviseDraft | src/ai_rpg/infrastructure/postgres/stories.py:399-430 | a revision keeps the story's own scenario reference and version, has its missing refs filled in and is appended to the history |
| Jobs.JobStore.ApplyProposal | src/ai_rpg/infrastructure/postgres/story_jobs.py:266-299 | adopts a selection into the draft at the proposal's base revision and decides the proposal |
| DraftLaws.SaveAnswer | src/ai_rpg/infrastructure/postgres/stories.py:386-430 | a draft is saved exactly for its owner, at the expected revision, with no other story's reference; the new revision keeps its notes, metadata, policies and every scenario value at its place |
| DraftLaws.RestoreAnswer | src/ai_rpg/infrastructure/postgres/stories.py:459-480 | in every state of every run a restore answers with a revision exactly within the history at the expected revision, and the new draft and history entry is the one asked for, unchanged |
| DraftLaws.ApplyAnswer | src/ai_rpg/infrastructure/postgres/story_jobs.py:266-299 | applying stores what adopting the selection makes of the draft, as the next revision, and decides the proposal |
| DraftLaws.CreateAnswer | src/ai_rpg/infrastructure/postgres/stories.py:310-359 | a new story is its owner's, at revision 1, with a draft that keeps the one given |
| JobAnswers.ClaimAnswer | src/ai_rpg/infrastructure/postgres/story_jobs.py:301-373 | a job whose lease has run out is queued again exactly if an attempt is left and nothing was requested, and fails otherwise; then the oldest waiting job is leased while fewer than the limit run |
| JobAnswers.EnqueueAnswer | src/ai_rpg/infrastructure/postgres/story_jobs.py:129-194 | a job is queued exactly for the owner at the current revision, under the owner's limit, with an outline that is still the approved one, and carries the draft of that revision |
| JobAnswers.ReserveAnswer | src/ai_rpg/infrastructure/postgres/story_jobs.py:391-413 | the request is reserved exactly under a lease current after waiting, once |
| JobAnswers.UsageAnswer | src/ai_rpg/infrastructure/postgres/story_jobs.py:415-433 | what an attempt has used only grows |
| JobAnswers.SucceedAnswer | src/ai_rpg/infrastructure/postgres/story_jobs.py:435-465 | a result is stored exactly under the current lease after a reserved request, with its proposal and outline |
| JobAnswers.FailAnswer | src/ai_rpg/infrastructure/postgres/story_jobs.py:467-481 | a job fails exactly under its current lease |
| JobAnswers.CancelAnswer | src/ai_rpg/infrastructure/postgres/story_jobs.py:216-227 | a job that is not over is cancelled by its owner and its worker fenced |
| JobAnswers.OutlineAnswer | src/ai_rpg/infrastructure/postgres/story_jobs.py:229-264 | a finished outline is approved as it is, or edited and no longer approved |
| JobAnswers.ProduceAnswer | src/ai_rpg/application/story_jobs.py:427-456 | an outline job yields its outline and a proposal for findings only, a check proposes no change, and only making a draft concrete supplies its schema |
| JobProtocol.StepKeeps | src/ai_rpg/infrastructure/postgres/story_jobs.py:129-497 | every step of owners, workers and moderation, with crashes and expiry, keeps the invariant of queue, attempts, proposals, drafts and leases |
| JobLaws.AlwaysInvariant | src/ai_rpg/infrastructure/postgres/story_jobs.py:129-497 | the invariant holds in every state of every run |
| JobLaws.QueueIsConsistent | migrations/versions/0016_story_jobs.py:13-72 | running exactly while leased, attempts within the limit, at most one request, and an unfinished attempt exactly for the running epoch |
| JobLaws.LimitsHold | src/ai_rpg/infrastructure/postgres/story_jobs.py:157-166 | running jobs and active jobs per owner stay under their limits |
| JobLaws.ReservedIsFinal | src/ai_rpg/infrastructure/postgres/story_jobs.py:316-331 | terminal jobs never change state, and a job with a reserved request is never queued or leased again |
| JobLaws.OneRequest | src/ai_rpg/infrastructure/postgres/story_jobs.py:391-413 | no two reservations for one job ever succeed, whichever leases they come from |
| JobLaws.ResultsAreFenced | src/ai_rpg/infrastructure/postgres/story_jobs.py:375-389 | a result only counts for the latest epoch while its lease lasts, and closes the job |
| JobLaws.ClaimFencesForever | src/ai_rpg/infrastructure/postgres/story_jobs.py:349-353 | a claim fences every earlier lease of the job for good |
| JobLaws.ProposalsMatchSnapshots | src/ai_rpg/infrastructure/postgres/story_jobs.py:435-465 | every stored proposal was prepared from the payload of its base revision, which stays that revision's payload |
| JobLaws.AppliedOnce | src/ai_rpg/infrastructure/postgres/story_jobs.py:280-281 | a proposal is applied at most once |
| JobLaws.DecisionsAreAdoptions | src/ai_rpg/infrastructure/postgres/story_jobs.py:266-299 | each decision records the adoption of a selection into exactly the job's snapshot, stored as the next revision |
| JobLaws.ApplyNeverConflicts | src/ai_rpg/infrastructure/postgres/story_jobs.py:282-292 | applying an undecided proposal at its base revision never meets a conflict or an immutable reference, for any selection: the story is revised, the draft model refuses it, or a fixed path moves, which needs one that is movable |
| JobLaws.AlwaysOwnRefs | src/ai_rpg/infrastructure/postgres/stories.py:399-430 | in every state of every run each draft carries its story's own scenario reference, and no row of its collections lacks its ref |
| Publishing.ShelfStore.CheckCache | src/ai_rpg/infrastructure/postgres/stories.py:503-521 | returns the newest report of the current revision |
| Publishing.ShelfStore.StoreReport | src/ai_rpg/infrastructure/postgres/stories.py:523-541 | stores a report only for the locked draft it was made from |
| Publishing.ShelfStore.Release | src/ai_rpg/infrastructure/postgres/stories.py:583-656 | the locked part of publishing: all checks, the playthrough evidence and the next release number |
| PublishingLaws.ReleaseIsLockedDraft | src/ai_rpg/infrastructure/postgres/stories.py:570-656 | although read, validated and parsed outside the lock, a release is the error-free definition of the locked draft revision with a completed, undebugged playtest of its owner |
| PublishingLaws.StepKeeps | src/ai_rpg/infrastructure/postgres/stories.py:503-656 | every interleaving with edits, validation and playtests keeps the invariant |
| PublishingLaws.ReleasesAreValidated | src/ai_rpg/infrastructure/postgres/stories.py:570-656 | in every state each version is the definition of its revision, validated without errors, and release numbers are 1..n |
| PublishAnswers.CacheAnswer | src/ai_rpg/infrastructure/postgres/stories.py:503-521 | the newest report of the current revision is used again, and none of another revision |
| PublishAnswers.SaveAnswer | src/ai_rpg/infrastructure/postgres/stories.py:523-541 | a report is stored exactly for the locked draft |
| PublishAnswers.PlaytestAnswer | src/ai_rpg/infrastructure/postgres/stories.py:543-568 | a playtest version is made exactly of the locked draft when it validated without errors |
| PublishAnswers.PublishAnswer | src/ai_rpg/infrastructure/postgres/stories.py:583-656 | a release is made exactly for a live story at the expected revision, with an error-free report on the locked draft, every warning and the playtest acknowledged, and a newest completed playthrough with a known ending; its number is one above all others |
| PublishAnswers.WarningsAreAcknowledged | src/ai_rpg/infrastructure/postgres/stories.py:611-613 | in every state of every run, a release has all warnings of the locked draft acknowledged |
| PublishAnswers.VersionsAreSound | src/ai_rpg/infrastructure/postgres/stories.py:570-656 | in every state of every run, each version was made from a draft that parsed to it and had no findings |
| Resolution.CanonicalMutations | src/ai_rpg/application/resolution.py:145-213 | the loops compute the net mutations, or reject a discontinuous chain |
| Resolution.AssignEvents | src/ai_rpg/application/resolution.py:216-305 | the loops number dice, changes, results, reaction and progress in order |
| ResolutionLaws.AcceptedIsContinuous | src/ai_rpg/application/resolution.py:145-213 | the changes are accepted exactly when some store admits all of them in order |
| ResolutionLaws.NetRefinesChanges | src/ai_rpg/infrastructure/postgres/repositories.py:201-255 | on any store the changes apply to, the net mutations pass every check and equal applying each change in order |
| ResolutionLaws.ChangesStayBounded | src/ai_rpg/domain/results.py:24-53 | hit points stay between 0 and their maximum |
| ResolutionLaws.StockFallsByConsumptions | src/ai_rpg/domain/results.py:55-66 | a stack falls by exactly the number of its consumptions |
| ResolutionLaws.VersionTestsAgree | src/ai_rpg/application/workers.py:672-684 | the worker's test of single changes and the projection's test of net mutations agree when healing comes with consumption |
| ResolutionLaws.LoneHealingDisagrees | src/ai_rpg/application/resolution.py:339-342 | without that pairing they differ: a healing undone by damage |
| Mechanics.ResolveActions | src/ai_rpg/application/workers.py:1213-1522 | the loop resolves the plan against a working state and records dice indices |
| Mechanics.ResolveEnemyReaction | src/ai_rpg/application/combat.py:28-135 | brings the characters up to date over the actions' changes and lets a reachable, standing enemy attack a standing actor |
| RuleLaws.AttackAnswer | src/ai_rpg/engine/ruleset.py:58-104 | an attack succeeds exactly if 1 + draw mod 20 plus the bonus reaches the target's defense, and then takes the weapon's dice and bonuses off, not below zero |
| RuleLaws.ItemAnswer | src/ai_rpg/engine/ruleset.py:106-155 | a potion heals 1d6+2 up to the maximum and is used up |
| RuleLaws.CheckAnswer | src/ai_rpg/engine/ruleset.py:35-56 | a check succeeds exactly if 1 + draw mod 20 plus the modifier reaches the difficulty class, and changes nothing |
| RuleLaws.PlanAnswers | src/ai_rpg/application/workers.py:1213-1522 | every action of a plan is decided by its draws against what the actions before it left: a miss leaves all hit points, a hit lowers exactly the target, potions and checks as above, and a target or stock that is gone makes it inapplicable |
| RuleLaws.PlanGoesThrough | src/ai_rpg/application/workers.py:1213-1522 | a plan the preflight lets through, with supported dice, is resolved to the end whatever is drawn |
| RuleLaws.ReactionAnswer | src/ai_rpg/application/combat.py:28-135 | the configured enemy reacts exactly if an action was carried out, the turn stays, the fight is on or was started against it, and both stand; its attack is decided like any other, and the update tells the start of the fight and the actor's fall |
| ProjectionAnswers.PreflightAnswer | src/ai_rpg/application/workers.py:1059-1205 | a plan is let through exactly if the actor stands, the number of intents is right and each has a standing target and a carried weapon, or an item in stock and an injury |
| AssemblyLaws.PlanIsOk | src/ai_rpg/application/workers.py:1213-1522 | the records of a plan are in order, with valid changes that lead from the snapshot to the working state, healing paired with consumption |
| AssemblyLaws.ReactionPasses | src/ai_rpg/application/resolution.py:98-142 | the attack the rules make for another character passes every check of enemy reactions, for all dice |
| AssemblyLaws.ReactionIsOk | src/ai_rpg/application/combat.py:28-135 | the reaction's own bookkeeping of hit points never breaks off and continues the actions' chain |
| AssemblyLaws.PredictsVersion | src/ai_rpg/application/workers.py:672-694 | the narration input names the version the projection derives |
| ProjectionAnswers.ProjectAnswer | src/ai_rpg/application/resolution.py:308-367 | any bundle is accepted exactly if its actions are the turn's own, its reaction is a valid attack of the configured enemy, the changes are continuous, every die is indexed and the narration tells these results at the version they amount to |
| ProjectionAnswers.EventCounts | src/ai_rpg/application/resolution.py:216-305 | the events tell every die of the actions, one result for each action, each reaction, and the progress of the scenario exactly if there is one |
| ProjectionAnswers.CommitAnswer | src/ai_rpg/infrastructure/postgres/repositories.py:201-255 | mutations of distinct keys are written exactly if each starts from the stored value and respects the maximum, and change nothing else |
| CommittedBundles.ProjectedCommit | src/ai_rpg/infrastructure/postgres/repositories.py:1368-1515 | a projected bundle is committed at the version its narration names, with the projection's events in the log |
| CommittedBundles.MutationsTell | src/ai_rpg/application/resolution.py:145-213 | there are no net mutations exactly if the changes leave the canonical store as it is |
| CommittedBundles.HeroTurnCommits | src/ai_rpg/infrastructure/postgres/repositories.py:1368-1515 | a hero's turn is committed at the version its narration names, one more than before exactly if the canonical values change on the whole or the run moves |
| AssemblyLaws.ProducerAndCheckerAgree | src/ai_rpg/application/resolution.py:308-367 | for every plan, snapshot, update and sequence of draws the projection accepts the assembled bundle, with the predicted version, exactly unless the acting character is the configured enemy of a combat under way and the turn stays in the scene |
| AssemblyLaws.HeroIsAccepted | src/ai_rpg/infrastructure/postgres/adventures.py:150-156 | a character that is no npc, as the hero of an adventure, never has an assembled bundle rejected |
| AssemblyLaws.PlayedNpcIsRejected | src/ai_rpg/infrastructure/postgres/repositories.py:262-287 | a snapshot in which an npc is played in its own combat: its turn is assembled and then rejected |
| AssemblyLaws.EventsTellChanges | src/ai_rpg/application/resolution.py:242-276 | the events tell exactly the state changes of the player's actions, in their order |
| AssemblyLaws.CommitEqualsPlay | src/ai_rpg/infrastructure/postgres/repositories.py:1385-1419 | committing an accepted bundle leaves what its actions and reaction did one by one, within bounds, with events numbered without gaps |
| AssemblyLaws.DefeatEndsTheRun | src/ai_rpg/application/combat.py:121-133 | the actor only falls to zero hit points in a turn whose update ends the run with the defeat of its combat |
| Campaigns.ReactionUpdateCommits | src/ai_rpg/application/combat.py:120-133 | what a reaction makes of an acceptable scenario update is acceptable to the commit, started flag and defeat included |
| Campaigns.ActiveMeansStanding | src/ai_rpg/application/combat.py:83-134 | over every history of committed turns: an active run has a hero with hit points left, a hero without any has ended it with a combat's defeat, the run stays well formed and hit points within bounds |
| Campaigns.HistoryReplays | src/ai_rpg/infrastructure/postgres/repositories.py:1385-1419 | over every history of committed turns the store is the initial one with all state changes played in order, and the version never falls |

## Left out

- Agreement.ExploreStory: stated for schema 2 stories without a bounded world and without combat, where the prediction is meant to be exact; that its saved runs are committed ones needs `Agreement.Committable` as well.
- Campaigns.ActiveMeansStanding: every turn of a history is the hero's, the one character an adventure gives to its player; turns of other controlled characters are not part of a history.
- JobLaws.ApplyNeverConflicts: assumes of the draft model, a parameter, that it takes over the scenario's reference as it is given (`JobLaws.KeepsRefs`); the draft's typed field for the scenario is an arbitrary dictionary.
- AssemblyLaws.ProducerAndCheckerAgree: the public state texts, allowed entity references and player text of the narration input are not part of the model.
- RunCommits.OpenCommit: the language heuristics for impossible trips and contradicted lore are arbitrary predicates.
- JSON: numbers are integers, booleans and numbers are distinct, writes act on values rather than on shared objects, and the 512000-byte limit of adopted drafts is not modelled.
- Digits in policy paths are ASCII digits; other Unicode decimals are not recognised as positions.
- Draft and definition models: `validate`, `parse` and the findings of validation are parameters, as are size and length bounds.
- Identifiers: UUIDs are indices or fresh numbers, content hashes stand for the content itself.
- Dice expressions are count, sides and modifier with the supported ranges; their text form is not modelled. Fact texts of results are left out.
- Difficulty names, abilities and specialties: `open_modifier` and `difficulty_class` enter as given modifiers and difficulty classes.
- Which entities are visible, public or attackable is part of the snapshot.
- Transactions are atomic steps that read one clock; where the code reads the clock again after waiting for a lock, the later reading is a parameter. Rows locked by others and skipped by a claim are a parameter too.
- Generated references are drawn from a supply for each revision of each story; that they are fresh is a premise of `References.FilledIsKeyed` only.
- Turn choices, action rows, failure codes, routing reason texts and risk proposals are not modelled beyond their effect on the turn row.
- Replay of mutating requests by request identifier (`_replay`, `_remember`) is part of the admission parameters; only the replay of turn commits is modelled.
- Usage limits: daily and global counts are an arbitrary answer of the ledger; only the keys it holds for calls of a turn are modelled.
- Story visibility, settings, duplication, templates, catalog search, reports, profiles and history: only easy members.
- `update_with_campaign_lock` has no caller and would change the version behind an open turn's back, so it is no step of the protocol.
- HTTP, sessions, the language model adapters and prompts, and the web client.
