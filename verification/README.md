# deskd: verified model of its state machines and protocols

deskd runs agents. Most of it moves bytes between processes; this project models the parts that hold
real logic and proves what they promise, for every input, every run and every interleaving:

* **Skill graphs** (`src/app/graph.rs`). `SkillGraph` holds steps and the dependency relation,
  `TopoSort` is Kahn's algorithm, `Ancestors` the ancestor closure, `Conditions` and `Templates` the two
  small languages of a step, `TemplateOrder` the exact limits of template expansion, `LlmContext`,
  `ContextCoverage` and `ContextText` what an LLM step is shown, down to the text, `GraphExecutor` the run
  of a whole graph and `RunReports` what its requests, results and prompts say. Answers of tools and models
  are arbitrary inputs.
* **The agent state document** (`src/app/agent_state.rs`). `DocumentLines`, `LineEditing`,
  `StateDocument` and `StateEdits` are the markdown edits, `DocumentShape` where each of them puts its
  lines, `SectionCounts` and `FiledLines` how often a line stands under a section, `SectionReading` and
  `SetSectionReads` what a section reads as, `StateProtocol` the lock, the temporary file and the rename as
  interleaved steps with unlocked readers, failures and kills at any point, `ProtocolProgress` what can
  always still happen there, `StateHistory` edits and protocol together.
* **The A2A task registry** (`src/app/a2a_server.rs`). `TaskRegistry` is the map and the queue that are
  updated in place, `RegistryRuns` compares runs with an eager list of tasks.
* **Hot reload** (`src/app/config_reload.rs` and its helpers). `Components` and `ConfigReload` are the
  bundle of running tasks, the diff classifier and the watcher loop; `ReloadRuns` and `ReloadLimits` say
  what runs keep and what a failed respawn loses, `ReloadNotice` which wakes take effect and what then
  runs; `ReloadTrigger` is the one-permit signal as a state
  machine.
* **Worker pids and accounting** (`src/app/agent_registry.rs`, `src/app/agent_process.rs`).
  `AgentRegistry` and `WorkerPid` are the state file and its compare-and-clear, `TurnAccounting`,
  `AccountingRuns` and `EventStreams` the event loop of one task and the totals over many.
* **Smaller cores.** `Durations` and `Reminders` (`src/app/mcp_service.rs`, `src/app/commands/mod.rs`),
  `Alerts` (`src/app/alerts.rs`), `EnvExpansion` (`src/config.rs`).

Code that updates state in place is a class or a loop here; each such method is proved equal to a function
of the old state, and the lemmas are about that function. Costs are exact reals and counters are unbounded
unless a width is written out.

## Where the code and its documentation differ

The model follows the code. These are proved, each with the exact condition or a concrete case:

* `llm_context` promises full results for the steps between the last LLM step and the current one. The
  cut is by position, so a parallel branch that the boundary never saw is dropped
  (`LostExactly`, `ParallelBranchIsLost`). Which graphs and orders lose nothing in any run can be seen
  beforehand (`NothingIsEverLostIff`); chains are among them (`ChainLosesNothing`).
* `expand_template` can depend on the iteration order of a hash map. For a value with a `{`, a key that
  closes a brace it did not open, or a template with a placeholder inside another there is a case that
  shows it, and for all others there is none (`SafeValueIffNoOpenBrace`, `SafeKeyIff`,
  `SafeTemplateIffNotNested`).
* A section title that ends in whitespace is never found again, and content with a heading makes
  a repeated replacement grow the document (`SetSectionTwiceIff`). As text, a second stamp drops a blank
  line of a document that ends in two, or is nothing but one (`StampTextTwiceIff`).
* The stamp is documented to have a blank line on each side below a heading; it gets one above only
  (`StampGoesBelowHeading`).
* `set_section` stamps the document after replacing the section. With no stamp yet and no heading above,
  the stamp lands inside the section, which then does not read back (`SetSectionReadsIff`).
* The reload watcher says an explicit trigger may re-apply the configuration to recover. A file without
  changes restarts nothing, and the trigger reports success even when a failed respawn has lost every
  component (`UnchangedFileRestartsNothing`, `RetriggerReportsSuccess`, `RecoversIff`). Tasks that a
  failed respawn had started run on unheld (`NothingLeaksIff`). Settings that sub-agents inherit from the
  whole file are not compared (`InheritedSettingsFollowIff`).
* The drain after a report drops the event that ends it: an exit or a second report behind a report is
  forgotten when it arrives in time (`NextOtherIsDroppedIff`, `ExitBehindReport`). Trailing texts count for
  tool uses and not for tokens.
* Interval reminders keep to their grid exactly when the interval is a whole number of milliseconds
  (`LeastIffWholeMillis`); every interval the parser accepts is.
* The label of a recovery alert is documented as `healthy`; it is `idle` for an idle agent (`RecoveryLabel`).
* An unclosed `${` is written back with a brace it did not have (`UnsetIsKeptIff`).

## Model

| member | source | states |
|---|---|---|
| SkillGraph.StuckSetHasCycle | src/app/graph.rs:502-504 | if every step of a set depends on a step of the same set, some step reaches itself: the argument behind reporting a cycle |
| SkillGraph.TopologicalOrderImpliesAcyclic | src/app/graph.rs:448-507 | an order with dependencies first exists only for acyclic dependencies |
| TopoSort.CheckDependencies | src/app/graph.rs:452-463 | nothing is reported exactly when every dependency names a step; otherwise the first bad one in document order |
| TopoSort.BuildEdges | src/app/graph.rs:465-478 | the in-degree map and the adjacency list record each dependency as often as it is listed |
| TopoSort.PayOne | src/app/graph.rs:492-497 | a decrement never underflows, keeps the state of the algorithm, and enqueues a node exactly at zero |
| TopoSort.LeftoverImpliesCycle | src/app/graph.rs:502-504 | when the queue runs dry before all steps are out, the dependencies have a cycle |
| TopoSort.Sort | src/app/graph.rs:449-507 | succeeds exactly when all dependencies exist and are acyclic; the result lists every step once, dependencies first |
| Ancestors.TransitiveDeps | src/app/graph.rs:399-418 | terminates on every step map and returns exactly the steps reachable through dependencies |
| Ancestors.AncestorsAreClosed | src/app/graph.rs:398-418 | that set is the least one that holds the step's dependencies and is closed under dependencies |
| Ancestors.NoStepIsItsOwnAncestor | src/app/graph.rs:398-418 | on acyclic maps a step is not its own ancestor |
| Conditions.InForm | src/app/graph.rs:262-269 | `'value' in name` holds exactly when the variable is set and contains the value |
| Conditions.NotInForm | src/app/graph.rs:254-261 | `'value' not in name` holds when the variable is missing or lacks the value |
| Conditions.NotInNegatesIn | src/app/graph.rs:239-243 | the two membership forms are negations of each other, missing variables included |
| Conditions.BangNegates | src/app/graph.rs:272-286 | `!name` is the negation of `name`, missing variables included |
| Conditions.PlainForm | src/app/graph.rs:280-286 | a name alone holds exactly when the variable is set and reads as neither nothing, `false` nor `0` |
| Templates.ExpandTemplate | src/app/graph.rs:290-296 | the result is one of those obtained by replacing the variables one after the other in some order of the map |
| Templates.ExpansionIsSubstitution | src/app/graph.rs:290-296 | for brace-free keys, values without `{` and unnested templates, every order gives the simultaneous substitution |
| Templates.ExpandTwiceIsOnce | src/app/graph.rs:604-632 | there, a second expansion changes nothing |
| TemplateOrder.SafeValueIffNoOpenBrace | src/app/graph.rs:292-294 | a value never makes the order visible, in any unnested template and next to any other values without `{`, exactly when it holds no `{` |
| TemplateOrder.SafeTemplateIffNotNested | src/app/graph.rs:292-294 | a template never makes the order visible, whatever the safe variables, exactly when no placeholder is opened inside another |
| TemplateOrder.SafeKeyIff | src/app/graph.rs:292-294 | a key never makes the order visible exactly when it holds no brace, or opens one before any it closes |
| LlmContext.FindBoundary | src/app/graph.rs:172-186 | the boundary is the last ancestor in the order that is an LLM step that ran |
| LlmContext.PushShown | src/app/graph.rs:201-220 | after the digest come exactly the recorded ancestors past the boundary, in order |
| LlmContext.Build | src/app/graph.rs:160-223 | the context is the rendering of the digest and of those steps |
| ContextText.PartsAre | src/app/graph.rs:160-223 | the parts are a summary of the last LLM ancestor that ran, with its output, first and only there; then the recorded ancestors behind it, each with its own result and in order |
| ContextText.ContextShowsOutput | src/app/graph.rs:188-199 | the text of the context contains that output |
| ContextText.ContextShowsTools | src/app/graph.rs:362-396 | it contains the arguments and the output of every tool call that was not skipped of the ancestors shown in full |
| ContextText.ContextNamesSteps | src/app/graph.rs:362-396 | it names each of these ancestors, skipped ones as such |
| ContextText.ContextOfOutput | src/app/graph.rs:188-199 | the context of one LLM ancestor with an output, character by character |
| ContextCoverage.ShownExactly | src/app/graph.rs:201-220 | a step is shown in full exactly when it is an ancestor after the boundary; shown steps keep their order |
| ContextCoverage.ContextMeaning | src/app/graph.rs:149-223 | no shown step is an LLM step that ran or upstream of the boundary; every other ancestor precedes the boundary |
| ContextCoverage.LostExactly | src/app/graph.rs:149-223 | an ancestor is neither shown nor digested exactly when it precedes the boundary without being upstream of it |
| ContextCoverage.ChainLosesNothing | src/app/graph.rs:149-159 | when the ancestors form a chain, what is left out is exactly the boundary and what lies upstream of it |
| ContextCoverage.NothingIsEverLostIff | src/app/graph.rs:149-223 | a graph and an order lose no step in any run, whatever is skipped, exactly when each LLM ancestor depends on every ancestor before it |
| ContextCoverage.ParallelBranchIsLost | src/app/graph.rs:149-159 | a three-step graph in which a parallel branch is lost |
| GraphExecutor.ExecTool | src/app/graph.rs:584-662 | the request and the result of one tool call: skipping, expansion, missing template, unknown tool |
| GraphExecutor.WrittenContentIsSubstitution | src/app/graph.rs:604-634 | the content of a written file is one simultaneous substitution although it is expanded twice |
| GraphExecutor.ExecInParallel | src/app/graph.rs:751-758 | whichever call finishes first, each result stands at the position of its call |
| GraphExecutor.ExecStep | src/app/graph.rs:729-848 | the result, the requests, the prompt and the new variables of one step |
| GraphExecutor.LaterResultsDoNotMatter | src/app/graph.rs:700-850 | recording a later result changes no context already built |
| GraphExecutor.Execute | src/app/graph.rs:700-850 | succeeds exactly on valid graphs; every step runs once in a topological order, its result explained by the results of its ancestors and the variables handed on; these start as the caller's inputs over the defaults and carry the value extracted last |
| GraphExecutor.AncestorsHaveRun | src/app/graph.rs:723-802 | at its turn a step finds each of its ancestors recorded, with its final result |
| GraphExecutor.InitialAreSeeded | src/app/graph.rs:715-721 | a run starts with the working directory, the caller's values for every other key, the defaults of keys the caller does not set, and no other key |
| GraphExecutor.RunCarriesVariables | src/app/graph.rs:794-848 | each later variable is the one extracted last, in the order of the steps, and a starting value only when no step that ran extracted it |
| RunReports.ToolReports | src/app/graph.rs:584-662 | a tool call is skipped exactly when its condition does not hold; otherwise it reports the reply it got, the error of a failed one, or the unknown tool, and only known tools ask anything of the world |
| RunReports.CommandIsSubstitution | src/app/graph.rs:604-662 | a bash call runs its command with every placeholder replaced at once, and its result repeats command, output and outcome |
| RunReports.PathIsSubstitution | src/app/graph.rs:604-662 | so do the paths of file tools |
| RunReports.TemplateIsSubstitution | src/app/graph.rs:604-634 | a written file gets its template with every placeholder replaced at once |
| RunReports.StepReports | src/app/graph.rs:729-792 | in a run a step is skipped exactly when its condition does not hold of the variables it starts from; a tool step has one result for each call, an LLM step the answer or the message of the failure |
| RunReports.PromptShowsTask | src/app/graph.rs:794-830 | the prompt of an LLM step ends in its own template with every placeholder replaced |
| RunReports.PromptShowsOutput | src/app/graph.rs:188-199 | the prompt contains the output of the last LLM ancestor that ran |
| RunReports.PromptShowsTools | src/app/graph.rs:362-396 | and the arguments and outputs of the tool calls of the ancestors behind it |
| LineEditing.PlaceStamp | src/app/agent_state.rs:248-282 | the two passes of the stamp compute its specification: first stamp replaced, else after the first heading, else on top |
| LineEditing.PlaceBullet | src/app/agent_state.rs:347-380 | the bullet goes below the last nonblank line of the section, or into a new section at the end |
| LineEditing.PlaceContent | src/app/agent_state.rs:388-420 | the body of the section is replaced, or the section added at the end |
| StateDocument.TitleIsFound | src/app/agent_state.rs:308-318 | a heading written for a title is found again exactly when the title does not end in whitespace |
| DocumentShape.StampLineIff | src/app/agent_state.rs:250-252 | a stamp line is one that reads `Last updated:` behind any indentation |
| DocumentShape.HeadingIff | src/app/agent_state.rs:298-306 | a heading is one or more hashes behind any indentation, with a space or nothing behind them |
| DocumentShape.SectionHeadingIff | src/app/agent_state.rs:308-318 | a section is headed by two or three hashes, a space, and its title up to trailing whitespace |
| DocumentShape.BulletIs | src/app/agent_state.rs:341-346 | a line that starts with a dash or a star behind any indentation stands as it is; any other gets a dash and a space |
| DocumentShape.AppendGoesTo | src/app/agent_state.rs:347-380 | that line goes below the first heading of the section and everything under it that is not all whitespace, and nothing else changes; a missing section is put at the end, behind an empty line |
| DocumentShape.ReplaceGoesTo | src/app/agent_state.rs:388-407 | a replacement puts its lines between two empty ones in place of all that stood below the heading |
| DocumentShape.StampReplacesFirst | src/app/agent_state.rs:248-261 | the new stamp takes the place of the first one |
| DocumentShape.StampGoesBelowHeading | src/app/agent_state.rs:263-282 | without one it goes below the first heading, behind an empty line |
| DocumentShape.StampGoesOnTop | src/app/agent_state.rs:274-281 | with neither it goes on top |
| StateEdits.AppendsKeepOrder | src/app/agent_state.rs:337-381 | any number of appends insert their bullets below the last nonblank line of the section, in order, and change no other line |
| StateEdits.AppendsToSectionsCommute | src/app/agent_state.rs:337-381 | appends to two different existing sections commute |
| StateEdits.SetSectionTwiceIff | src/app/agent_state.rs:383-421 | at line level replacement is idempotent on every document exactly for findable titles and heading-free content |
| StateEdits.SetSectionReadsBack | src/app/agent_state.rs:383-421 | the replaced section reads back as the content and the lines outside it are as they were, before any stamp |
| SectionReading.ReplacedReadsIff | src/app/agent_state.rs:236-283 | on lines, a section that was replaced, written, stamped and written again reads as the content exactly when the stamp spares it |
| SetSectionReads.SetSectionReadsIff | src/app/agent_state.rs:133-152 | after `set_section` the section reads back as the content, blank lines around it apart, exactly when the title does not end in whitespace, the content holds no heading and the stamp goes elsewhere: a stamp line or a heading above, or a stamp line below |
| SetSectionReads.FirstSectionTakesStamp | src/app/agent_state.rs:263-282 | in a document without stamp and heading the stamp of the first section lands inside it |
| SetSectionReads.EmptyDocumentTakesStamp | src/app/agent_state.rs:133-152 | setting a section of the empty document to one line does not read back as that line |
| StateEdits.RestampedLines | src/app/agent_state.rs:236-283 | at line level stamping at one time and then at another leaves the later stamp only |
| StateEdits.StampTextTwiceIff | src/app/agent_state.rs:244-294 | as text the same holds exactly when the document neither is one blank line nor ends in two |
| StateEdits.SecondStampDropsBlank | src/app/agent_state.rs:285-294 | two concrete documents that a second stamp changes |
| StateEdits.AppendLosesNothing | src/app/agent_state.rs:112-131 | after an append its text is there, as it is if it is an item and behind a dash otherwise, with the new stamp and every nonempty line that is no stamp |
| StateEdits.EditedDocumentIsStamped | src/app/agent_state.rs:104-152 | every operation leaves a document that carries its stamp |
| StateProtocol.ReachableStatesAreConsistent | src/app/agent_state.rs:166-224 | in every interleaving, with failures and kills, the document is the initial one with the completed operations applied in lock order, and only the lock holder is inside |
| StateProtocol.ReadsSeeCompleteDocuments | src/app/agent_state.rs:90-102 | an unlocked reader that opens the file and reads it piece by piece, while writers rename others into place, gets the document of the moment it opened: a prefix of the final log, never a partial one |
| StateProtocol.OutcomesAreTruthful | src/app/agent_state.rs:104-152 | a reported success took effect once, a failure never, a killed operation at most once |
| StateProtocol.OutcomesAreFinal | src/app/agent_state.rs:166-224 | what an operation has reported stays so, and a killed one does nothing any more |
| StateProtocol.RealTimeOrder | src/app/agent_state.rs:169-192 | an operation that had succeeded before another started precedes it in the log |
| ProtocolProgress.WaitingOpCanFinish | src/app/agent_state.rs:166-224 | from every reachable state a waiting operation can finish without any start, failure or kill, at most the lock holder going first; its edit is then the last in the log, made on the document in place |
| ProtocolProgress.SevenStepsCommit | src/app/agent_state.rs:185-224 | from a free lock the seven steps of an operation make its edit and change nothing else |
| ProtocolProgress.FullWriteCommits | src/app/agent_state.rs:104-110 | a full write does without reading: six steps put its document in place whatever stood there |
| ProtocolProgress.ReaderCanFinish | src/app/agent_state.rs:90-102 | an open reader can always read to the end, and has then read a whole document |
| ProtocolProgress.AnyOperationMayDie | src/app/agent_state.rs:166-224 | any operation under way can be killed, and the lock it held is free again |
| ProtocolProgress.AnyOperationMayFail | src/app/agent_state.rs:166-224 | until its rename any operation can fail, and then reports failure without effect |
| FiledLines.EditFiles | src/app/agent_state.rs:104-152 | an append adds its text, behind a dash unless it is an item, under its heading once and changes no other count; setting another section takes no filed line away; a full write leaves the lines as its content files them |
| FiledLines.FiledAlikeIff | src/app/agent_state.rs:341-346 | two appends to a section file the same line exactly when their texts are equal, or equal but for the dash one of them already has |
| StateHistory.AppendsAreCounted | src/app/agent_state.rs:112-131 | from any point of the log on, a section holds a line at least as often as then plus the appends that filed it since, with nothing but appends exactly as often, as long as that section is not rewritten |
| StateHistory.NoAppendIsLost | src/app/agent_state.rs:112-131 | in every reachable state a section holds a line at least as often as appends filed it there since the last full write or replacement of that section, whatever happened to others |
| StateHistory.AppendedBulletStays | src/app/agent_state.rs:112-131 | the text of one append, behind a dash unless it is an item, stands under its heading until a full write or a replacement of that title |
| StateHistory.ReadersFindTheStamp | src/app/agent_state.rs:90-152 | every reader finds the stamp of the latest completed operation |
| TaskRegistry.A2aTaskRegistry.constructor | src/app/a2a_server.rs:72-89 | an empty registry of capacity at least one |
| TaskRegistry.A2aTaskRegistry.SweepExpired | src/app/a2a_server.rs:132-142 | exactly the working tasks older than the TTL become expired, stamped now |
| TaskRegistry.A2aTaskRegistry.Insert | src/app/a2a_server.rs:91-101 | sweep, evict the oldest when full, enter the task |
| TaskRegistry.A2aTaskRegistry.Get | src/app/a2a_server.rs:103-108 | sweep, then look up |
| TaskRegistry.A2aTaskRegistry.SetStatus | src/app/a2a_server.rs:110-119 | sweep, then set status and timestamp of a known task |
| RegistryRuns.LazySweepIsUnobservable | src/app/a2a_server.rs:55-59 | after any run the status read is that of an eager list in which a working task expires once its age exceeds the TTL |
| RegistryRuns.KeepsTheNewest | src/app/a2a_server.rs:48-53 | after any run with fresh ids, whatever the clock did, the queue is the last `capacity` inserted ids in order, and lists every key of the map once |
| RegistryRuns.NeverBackToWorking | src/app/a2a_server.rs:128-142 | a task that is not working stays so and its timestamp never decreases, unless a caller sets it working or enters its id anew |
| RegistryRuns.InsertKeepsIff | src/app/a2a_server.rs:91-101 | insertion keeps queue, map and bound in agreement exactly when the id is new or is the one evicted |
| RegistryRuns.ReinsertionOutgrowsCapacity | src/app/a2a_server.rs:91-101 | inserting one id twice, then three others, leaves three tasks where two are allowed |
| RegistryRuns.RecordIsAsInserted | src/app/a2a_server.rs:86-142 | a task that is still known is the one inserted last under its id, but for its status and the time of its last change |
| RegistryRuns.SweptRecordIs | src/app/a2a_server.rs:128-142 | a sweep leaves a record as it was, or has a working one expired now |
| Components.AgentComponents.AbortAdapters | src/app/agent_components.rs:66-78 | every adapter is cancelled and aborted; handles and tokens are emptied together |
| Components.AgentComponents.AbortSchedules | src/app/agent_components.rs:80-88 | schedule watcher and reminder runner are aborted, nothing else |
| Components.AgentComponents.AbortAll | src/app/agent_components.rs:31-64 | every held task is aborted, adapters after cancellation, and nothing stays held |
| Components.AgentComponents.AbortSubAgents | src/app/agent_components.rs:90-95 | every sub-agent task is aborted |
| ConfigReload.SpawnAdapters | src/app/config_reload.rs:204-231 | one task, one handle and one token for each configured adapter |
| ConfigReload.SpawnSchedules | src/app/config_reload.rs:233-260 | one schedule watcher and one reminder runner |
| ConfigReload.SpawnComponents | src/app/config_reload.rs:40-201 | all tasks of a configuration, or an error that drops the handles gathered so far |
| ConfigReload.Watcher.Iterate | src/app/config_reload.rs:293-459 | one iteration of the watcher is the step function: skip, failed load, no restart, selective restart, full restart; `ReloadNotice.StepReads` says what it takes over |
| ConfigReload.Watcher.WatchAndReload | src/app/config_reload.rs:276-461 | a run of the watcher is the step function iterated |
| ReloadNotice.StepReads | src/app/config_reload.rs:302-350 | a wake that is triggered or sees another modification time records the times, accepts the file it loads or keeps the error; any other changes nothing |
| ReloadNotice.LastLoadIsInForce | src/app/config_reload.rs:302-350 | over every run the accepted configuration is the file loaded by the last wake that was triggered or saw times other than the wake before it |
| ReloadNotice.NothingLoaded | src/app/config_reload.rs:302-338 | a run without such a wake changes neither components nor configuration |
| ReloadNotice.OneLiveAdapterEach | src/app/config_reload.rs:341-405 | after a run whose respawns succeeded exactly one task of each adapter kind the agent has is alive, with the routes of the file loaded last |
| ReloadRuns.FullSpawnHolds | src/app/config_reload.rs:40-201 | a completed spawn holds exactly the tasks the configuration asks for, by kind and in order |
| ReloadRuns.StepConserves | src/app/config_reload.rs:293-461 | an iteration keeps held and aborted tasks apart and accounted for; what leaks is exactly what a failed respawn had started |
| ReloadRuns.NothingLeaksIff | src/app/config_reload.rs:374-459 | over every run each task is held or aborted exactly when no respawn failed; tokens stay in step with handles |
| ReloadRuns.RunFollowsConfig | src/app/config_reload.rs:341-461 | while respawns succeed, adapters and sub-agents are those of the last accepted configuration, whichever branches were taken |
| ReloadLimits.RemovalRestartsAll | src/app/config_changeset.rs:33-58 | a sub-agent that vanishes from a file that is noticed and loads forces the full restart, is evicted, and no old task survives |
| ReloadLimits.RunEvicts | src/app/config_reload.rs:407-424 | over every run, failed respawns included, no state file of a removed sub-agent is left |
| ReloadLimits.FilesFollowConfig | src/app/config_reload.rs:407-424 | while respawns succeed the state files are exactly those of the configured sub-agents and of others |
| ReloadLimits.FailedLoadKeeps | src/app/config_reload.rs:322-338 | a failed load changes no component and no accepted configuration, and keeps the last success time |
| ReloadLimits.RestartsExactly | src/app/config_reload.rs:352-405 | which held tasks an accepted file aborts, kind by kind and section by section, in both directions |
| ReloadLimits.UnchangedFileRestartsNothing | src/app/config_reload.rs:304-315 | while the file reads as last accepted, no wake restarts or recovers anything |
| ReloadLimits.RetriggerReportsSuccess | src/app/config_reload.rs:304-370 | a trigger over a lost bundle records success and restores nothing |
| ReloadLimits.FailedRespawnLosesBundle | src/app/config_reload.rs:426-459 | a failed respawn leaves nothing held while its configuration counts as accepted |
| ReloadLimits.RecoversIff | src/app/config_reload.rs:350-459 | a lost bundle comes back exactly with a file that has other sub-agents, or both other adapters and other schedules, and whose respawn succeeds |
| ReloadLimits.StartFollows | src/app/config_reload.rs:285-291 | the watcher starts in the invariant when it loads the configuration its components were spawned from |
| ReloadLimits.InheritedSettingsFollowIff | src/app/config_reload.rs:126-170 | sub-agents get the inherited settings of an accepted file exactly when these are unchanged, nobody inherits them, or the whole bundle is restarted |
| ReloadTrigger.BlockedMeansServed | src/app/reload_state.rs:49-58 | when the watcher is blocked no permit is stored and every trigger has been followed by the begin of a load, one from before the first wait included |
| ReloadTrigger.UnchangedTimesMeanCurrent | src/app/config_reload.rs:302-322 | when the recorded modification times are the file's, what was loaded last is the file as it is |
| ReloadTrigger.WakesAreTriggered | src/app/reload_state.rs:49-58 | triggers coalesce but never wake the watcher more often than there were triggers, counted over the run |
| ReloadTrigger.LoadsAreCaused | src/app/config_reload.rs:302-322 | each load has its own trigger or edit: polls that find nothing changed load nothing |
| ReloadTrigger.TriggersAreServed | src/app/config_reload.rs:293-322 | after any trigger the watcher takes at most four steps before it begins a load, whatever interleaves, and can always take one |
| ReloadTrigger.EditsAreLoaded | src/app/config_reload.rs:293-322 | after any edit it takes at most five steps before a load has read it, triggered or not |
| AgentRegistry.StateFile.PersistPid | src/app/agent_registry.rs:254-268 | the pid is stored; a missing file stays missing |
| AgentRegistry.StateFile.ClearPidIfMatches | src/app/agent_registry.rs:289-310 | the pid becomes zero exactly when it is the expected one |
| AgentRegistry.StateFile.CreateOrRecover | src/app/agent_registry.rs:388-487 | a recovered state keeps its counters, takes the new configuration and has no pid |
| WorkerPid.StoredPidIsCurrent | src/app/agent_registry.rs:254-310 | from any file, it names a worker exactly when its generation was stored and neither respawned, recovered, removed nor cleared by itself since; a pid from before the run lasts until the first recovery, removal or spawn |
| WorkerPid.StoredPidIsZeroOrNewest | src/app/agent_process.rs:386-400 | once recovered, removed or spawned over, the stored pid is zero or that of the newest spawn |
| WorkerPid.ClearsOnlyItself | src/app/agent_process.rs:562-577 | a late clear of an older generation changes nothing; the newest one's own leaves no pid |
| WorkerPid.ClearTakesIff | src/app/agent_registry.rs:289-310 | a clear takes the stored pid away exactly when it is the pid of the clearing generation |
| WorkerPid.ReusedPidIsCleared | src/app/agent_registry.rs:289-310 | so with a pid used twice the older generation's clear wipes the newer one's |
| WorkerPid.SaveRevivesIff | src/app/agent_process.rs:782-798 | a whole-state save brings back the pid of a worker that is gone exactly when that worker was current at the load and ended since |
| WorkerPid.SpanningSaveRevivesPid | src/app/agent_process.rs:782-798 | a concrete run in which a save spans the exit and does so |
| WorkerPid.FiguresSurvive | src/app/agent_registry.rs:388-487 | no restart, start or exit of a worker touches the session or the counters of an existing file |
| WorkerPid.SaveOverwrites | src/app/agent_process.rs:782-798 | a whole-state save leaves its own counters and everything else as it was loaded, whatever happened in between |
| TurnAccounting.ReadTexts | src/app/agent_process.rs:718-751 | texts are added up to the first other event or to the text that passes the turn limit; the sink gets the same text |
| TurnAccounting.ReadTrailing | src/app/agent_process.rs:752-767 | the texts that trail the report are added, up to the first other event |
| TurnAccounting.EndIsUnique | src/app/agent_process.rs:718-822 | the point where the loop ends is determined by the events and the limit |
| TurnAccounting.AgentProcess.Kill | src/app/agent_process.rs:834-852 | the process is taken and its own pid cleared |
| TurnAccounting.AgentProcess.Account | src/app/agent_process.rs:773-798 | the saved state grows by the positive part of the increments; a new session starts its figures at zero |
| TurnAccounting.AgentProcess.SendTask | src/app/agent_process.rs:600-824 | outcome, streamed text, reports and saved state of one task |
| AccountingRuns.TaskEndsIff | src/app/agent_process.rs:718-822 | a task is done exactly when a report follows texts within the limit, killed exactly when a text passes it, by one |
| TurnAccounting.FiguresJoin | src/app/agent_process.rs:718-751 | text, turns, tokens and tool uses of events in a row are those of the parts, added up |
| TurnAccounting.FiguresOfOne | src/app/agent_process.rs:718-751 | a text block adds its text, tokens and tool uses, and a turn unless it is empty; anything else adds nothing |
| TurnAccounting.ResultSays | src/app/agent_process.rs:752-812 | the result repeats its report; its text and tool uses are those of the blocks before and of the ready ones behind the report, its tokens those of the blocks before |
| EventStreams.NextOtherIsDroppedIff | src/app/agent_process.rs:752-767 | the first event behind a report that is no text, an exit or a second report, is dropped by the drain exactly when it has arrived by then; what follows it is left |
| EventStreams.OtherRemainsIff | src/app/agent_process.rs:752-767 | such an event is still in the channel for the next task exactly when fewer events had arrived |
| EventStreams.ExitBehindReport | src/app/agent_process.rs:607-678 | the next task is told of an exit between turns exactly when the exit was not dropped, and of a closed channel otherwise |
| EventStreams.RunTurns | src/app/agent_process.rs:600-824 | over many tasks on one process the saved state is the account of the reports taken, up to the first task that fails |
| EventStreams.DroppedReportsAreMadeUp | src/app/agent_process.rs:773-798 | on a stream of events whose reports never decrease, the total grows by the last report accounted for, whichever reports the drains dropped on the way |
| AccountingRuns.TotalsBalance | src/app/agent_process.rs:773-798 | totals are the last report plus what reports dropped by, less what could not be stored |
| AccountingRuns.TotalIsLastReportIff | src/app/agent_process.rs:773-798 | a process adds exactly its last report to the total cost exactly when reported costs never decrease, and likewise for turns |
| AccountingRuns.SessionCountsSinceChange | src/app/agent_process.rs:783-796 | session figures are the totals less what they were when the session last changed |
| AccountingRuns.SessionIsLastNamed | src/app/agent_process.rs:783-792 | the session is the one of the last stored report of a persistent agent that names one, and as before when none does |
| AccountingRuns.SessionBeganAtChange | src/app/agent_process.rs:783-792 | the session start is the time of the report with which the session last changed |
| Durations.ParseDurationSecs | src/app/commands/mod.rs:60-121 | the value is the weighted sum of the parts, modulo the counter's width, with the same errors in the same order |
| Durations.ParsesIff | src/app/commands/mod.rs:51-60 | a string parses exactly when it is one or more numbers with units, in one way only |
| Durations.UnitsAreRead | src/app/commands/mod.rs:51-60 | a duration written out in days, hours, minutes and seconds is read as the seconds it stands for |
| Reminders.NextAfter | src/app/mcp_service.rs:47-83 | the next fire time is after now and after the last one |
| Reminders.LeastIffWholeMillis | src/app/mcp_service.rs:50-74 | for every clock reading it is the least grid point after now, exactly for whole-millisecond intervals |
| Reminders.FiresOnGrid | src/app/mcp_service.rs:50-74 | over repeated firings the reminder stays on its first grid, moves forward and collapses missed firings into one |
| Reminders.ParseScheduleKind | src/app/mcp_service.rs:92-111 | no interval is one-shot, a bad or sub-minute one an error, any other an interval of that many seconds |
| Reminders.AcceptedIntervals | src/app/mcp_service.rs:60-111 | accepted intervals keep to their grid, and fire again exactly when the clock library can represent them |
| Alerts.AlertManager.TransitionAlert | src/app/alerts.rs:330-355 | an alert exactly when the report crosses the healthy/degraded boundary; the last verdict is recorded always |
| Alerts.AlertManager.Observe | src/app/alerts.rs:320-381 | the verdicts and delivery attempts of a batch |
| Alerts.AlertsAreIndependent | src/app/alerts.rs:330-355 | an agent's alerts are those its own reports alone would give |
| Alerts.AlertsAlternate | src/app/alerts.rs:316-355 | each agent's alerts alternate starting with a degradation; it is degraded exactly when the last is one |
| Alerts.LastAlertTells | src/app/alerts.rs:316-355 | the last alert about an agent is a degradation exactly when its last report is neither healthy nor idle |
| Alerts.BatchesJoin | src/app/alerts.rs:320-326 | alerts do not depend on how reports are batched |
| Alerts.EverySinkIsTried | src/app/alerts.rs:357-381 | every sink gets every alert once and in order, whichever sinks fail |
| Alerts.RecoveryLabel | src/app/alerts.rs:85-103 | a recovery is labelled `healthy` exactly when the agent is not merely idle |
| EnvExpansion.ExpandEnvVars | src/config.rs:1165-1206 | the result is the substitution of the input's tokens: names come from the input only, values are not rescanned |
| EnvExpansion.TokensSpell | src/config.rs:1165-1206 | the tokens spell the input, character by character |
| EnvExpansion.ClosedIff | src/config.rs:1171-1178 | a token lacks its brace exactly when some `${` has no `}` after it |
| EnvExpansion.UnsetIsKeptIff | src/config.rs:1163-1178 | with no variable set the value comes back exactly when every `${` is closed |
| EnvExpansion.SetIsReplaced | src/config.rs:1171-1200 | the value of a variable that is set stands in place of `${name}` and of `$name`, and the rest is expanded by itself |
| EnvExpansion.PlainIsKept | src/config.rs:1165-1206 | text without a dollar sign in front stays as it is |
| EnvExpansion.DollarIsKept | src/config.rs:1197-1198 | a dollar sign that opens neither form stays as it is |

## Left out

- Duplicate step ids: unique ids are a precondition of `TopoSort.Sort` and `GraphExecutor.Execute`; the code does not check them.
- Foreign effects of the graph engine: shell commands, the model's command line, file contents and JSON extraction are arbitrary answers; `~/` and relative paths are not resolved; durations of steps are not recorded.
- RunReports.CommandIsSubstitution: for variables and templates that make the order of replacement visible, only `Templates.ExpandTemplate` is promised; so for paths, templates and prompts.
- StateEdits.StampTextTwiceIff: assumes text without carriage returns, which the line splitter would drop; so do the other statements about whole texts.
- Crashes of the machine: a killed operation leaves its temporary file and loses its lock; the durability of a rename is not modelled.
- RegistryRuns.LazySweepIsUnobservable: assumes a clock that does not run backwards and ids that are not inserted twice; `RegistryRuns.InsertKeepsIff` says what a repeated id does.
- Reading the clock: each operation takes its readings as inputs, so nothing is said about their overflow.
- Evicting sub-agents: failures to delete a file are left out, as are the log files that go with it.
- Reload without any configuration at start: the watcher is modelled from components spawned with a configuration; the modification times of the agents directory are inputs.
- ReloadTrigger.UnchangedTimesMeanCurrent: assumes that every edit changes a modification time.
- Schedule and reminder runners, adapters and workers themselves: only their spawning, cancellation and abortion are modelled.
- WorkerPid.StoredPidIsCurrent: assumes distinct pids and that no other change falls between the load and the write of a whole-state save; `WorkerPid.ClearTakesIff` and `WorkerPid.SaveRevivesIff` say what happens otherwise.
- EventStreams.RunTurns: the state file stays in place while the tasks run; `AccountingRuns.TotalsBalance` says what a missing one costs.
- StateProtocol.ReadsSeeCompleteDocuments: the read of an editor under the lock is one step, as nobody can rename meanwhile.
- The restart tool of the MCP service: it sends a signal and rewrites the status, which is one more whole-state save.
- TurnAccounting.AgentProcess.SendTask: turns and tokens do not wrap at their machine width, tool uses saturate at theirs; floating-point rounding of costs is not modelled; images and the text sent to the process are left out.
- Reminders.NextAfter: cron expressions and the overflow of dates are not modelled.
- Durations.ParseDurationSecs: sums wrap as in an optimised build; a debug build stops instead.
- Alerts.AlertManager.Observe: sinks answer as an arbitrary function of sink and alert; their payloads are not modelled.
- EnvExpansion.ExpandEnvVars: the classification of letters and digits is a parameter, of which only that `$` is neither is used.
- Sockets, HTTP, JSON-RPC, authentication, path checks, the task store, the workflow engine, tmux and containers: effects and thin dispatch, with no state of their own that could be proved about.
