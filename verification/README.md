# The evolve command layer, verified

A Dafny model of the parts of the `evolve` command line (Go, `go/cmd/evolve`) that hold real algorithms and
protocols, with proofs of what those parts promise. `dafny verify dfyconfig.toml` checks all of it.

The code that works in place keeps that form: writers, the queue directory, the routing block, the state file, the
lane and the meter are classes whose methods are proved against a function of the bytes, files or events so far. The
protocols that several processes run, or that can stop anywhere, are transition systems over their atomic steps.

| File | What it models |
|---|---|
| `Base`, `Lines` | options, results, filters, last-n; the one way to split a byte stream at newlines |
| `JsonText`, `JsonTextProofs` | the JSON grammar of sections 2 to 7 of RFC 8259 as a syntax tree with all its blanks, written out in bytes, the scanner of a streaming decoder with its own constants and tests, and their equivalence |
| `MemberRemoval`, `MemberRemovalProofs`, `ObjectTexts` | cutting top-level members out of raw object text by byte span |
| `QueueProtocol`, `QueueProtocolProofs` | the mid-wave request queue under any number of appliers and crashes |
| `QueueOrder`, `QueueListing`, `QueueNames`, `QueuePass`, `QueueApply` | one applier: string order of time stamps, the loaded listing, the names of queued requests, what a pass does to the directory, and the verb that loads and works off the queue |
| `StderrTail`, `TailWriter`, `PrefixLines`, `ContractWriters` | five streaming line writers, one of them under a mutex shared by any number of writers |
| `LogLinks`, `BoundaryLog` | the rotation of the boundary's log links, as interleaved file system calls and as one run |
| `Routing`, `RoutingTables`, `Migration` | edits of the routing table, in place behind a clone, and the migration of legacy keys into it |
| `ProfileEffort`, `ProfileEffortProofs` | moving the efforts that profiles declare into the table, and which profiles the table honours afterwards |
| `RoutingMigration` | the migrate verb: the efforts first, the legacy keys after them |
| `DetachArgs`, `FlagTokens`, `DetachArgsProofs` | the arguments of the detached child, against a model of the flag parser; which tokens are flags |
| `BootRefresh` | the rebuild-and-exec of a stale binary and the marker that bounds it |
| `LaneBinding` | a lane that takes its paused cycle back, and the settling of its scope's bindings |
| `Carryover`, `SoakMeter`, `TrackedIndex` | carryover decisions, the soak meter, the lint of declared paths |

Results that are not what one might expect of the code; each is stated as the exact condition or with its input:

- The member scan does not look at the closing brace: it accepts a text exactly when it is a list of members behind an
  opening brace (`AcceptedTexts`).
- A key that an object repeats is removed once per mention (`RemoveKeysCounts`), the first occurrence first.
- A request whose applier crashes, or cannot move it, stays on the processing shelf for good (`StrandedForever`).
- Setting and unsetting an effort does not always restore the table (`TierEffortRoundTrip`, `AgentEffortRoundTrip`). Of
  the rules that can be in the file it does exactly when no effort was set before (`CompiledTierRoundTrip`,
  `CompiledAgentRoundTrip`); an earlier effort is lost (`EarlierEffortIsLost`). A tier that holds only a share, or an
  agent that holds only a headroom, would be deleted, but both shapes are refused before the table with the effort is
  written. A set entry whose name ends like an effort or share key is not unset (`UnsetUndoesSet`).
- Two profiles of one name can undo each other's override (`SharedNameUndoes`). A profile is honoured exactly when no
  later profile of its name brings a level into the table that it does not agree with (`HonouredExactly`).
- A flag value that looks like a launch flag is lost in the detached child (`GoalTextIsLost`); the child reads the same
  settings exactly when there is none (`ChildReadsTheSame`).
- Where the refresh marker cannot be written, or cannot be read, a launch can re-exec without bound
  (`UnboundedWithoutMarkers`, `BoundNeedsMarkers`); a marker left behind by an earlier launch refuses one later refresh
  (`LeftoverMarkerRefuses`).
- After settling, the ledger gate still misses the manifest when the first binding left is the cycle's own
  (`GateAfterSettle`).
- The carryover fast path leaves a missing list missing where the full pass would write an empty one
  (`FastPathKeepsState`).
- The top of the tree, declared as a path, is reported gone (`TopIsAlwaysGone`).
- The last lines of the kept tail are those of the whole output exactly when they and the newlines behind them fit;
  the newline in front of them need not (`LastLinesFit`).

## Model

| member | source | states |
|---|---|---|
| JsonTextProofs.ScanValueExact | go/cmd/evolve/cli_routing_effort_migrate.go:136-139 | decoding one value accepts exactly the texts of the JSON grammar and stops right behind the value |
| JsonTextProofs.ScanValueComplete | go/cmd/evolve/cli_routing_effort_migrate.go:136-139 | the text of every value, with any blanks and nesting in the limit, is read to its end |
| JsonTextProofs.ScanValueSound | go/cmd/evolve/cli_routing_effort_migrate.go:136-139 | whatever is read is the text of some value of the grammar |
| MemberRemoval.TopLevelMembers | go/cmd/evolve/cli_routing_effort_migrate.go:125-144 | the decoder loop returns the spans that the text has by definition, and fails exactly when it has none |
| MemberRemoval.RemoveTopLevelKeys | go/cmd/evolve/cli_routing_effort_migrate.go:90-100 | the loop over the keys is the removal of one key after the other, with its errors |
| MemberRemovalProofs.AcceptedTexts | go/cmd/evolve/cli_routing_effort_migrate.go:125-144 | the scan accepts a text if and only if it is a list of well-formed members behind an opening brace |
| MemberRemovalProofs.DocSpansFound | go/cmd/evolve/cli_routing_effort_migrate.go:131-142 | on any list of members the spans found are those members: from the comma to the end of the value, only blanks between |
| MemberRemovalProofs.RemovesOneMember | go/cmd/evolve/cli_routing_effort_migrate.go:107-123 | for the first, a middle, the last and the only member alike, the edit leaves the text of the document without that member |
| MemberRemovalProofs.RemovesNothing | go/cmd/evolve/cli_routing_effort_migrate.go:114-115 | an absent key gives back the text |
| MemberRemovalProofs.RemoveKeysText | go/cmd/evolve/cli_routing_effort_migrate.go:90-100 | removing any keys never fails on such a text and leaves a well-formed one, a whole object a whole object |
| MemberRemovalProofs.RemoveKeysCounts | go/cmd/evolve/cli_routing_effort_migrate.go:90-100 | the keys afterwards are the keys before minus one for each mention |
| MemberRemovalProofs.RemoveKeysKeepsTheRest | go/cmd/evolve/cli_routing_effort_migrate.go:90-123 | where no listed key repeats, the remaining members are those of other keys, in order, with their bytes |
| MemberRemovalProofs.RemoveKeysAnyOrder | go/cmd/evolve/cli_routing_effort_migrate.go:90-100 | the remaining members do not depend on the order of the keys |
| ObjectTexts.ObjectTextsAreDocs | go/cmd/evolve/cli_routing_effort_migrate.go:125-144 | the object texts of the JSON grammar are exactly the whole lists of members |
| ObjectTexts.RemovalFromObjectText | go/cmd/evolve/cli_routing_effort_migrate.go:90-123 | removing keys from any object text gives an object text; however the text is read as members, the result has exactly the other members |
| ObjectTexts.RemovesOnlyMember | go/cmd/evolve/cli_routing_effort_migrate.go:107-123 | with any spaces, tabs, line feeds and carriage returns between the tokens of an object of one member, the removal of its key leaves the braces and the blanks around the member |
| ObjectTexts.RemovalOverLines | go/cmd/evolve/cli_routing_effort_migrate.go:90-144 | an object printed over three lines loses its one member |
| ObjectTexts.ClosingMeans | go/cmd/evolve/cli_routing_effort_migrate.go:131 | the loop over the members ends at blanks followed by the end of the text, a closing brace or a closing bracket |
| Lines.SplitUnique | go/cmd/evolve/cmd_boundary.go:247-259 | there is one way to write a stream as complete lines and a fragment |
| Lines.SplitAppend | go/cmd/evolve/cmd_boundary.go:247-259 | the lines of a longer stream are the earlier lines and those of fragment plus chunk, so chunking does not matter |
| StderrTail.Tail.Write | go/cmd/evolve/cmd_boundary.go:247-259 | after any write the state is the clipped last lines and the clipped fragment of all bytes so far |
| StderrTail.Tail.Lines | go/cmd/evolve/cmd_boundary.go:268-274 | the result is the last 40 lines of the stream, fragment included, each its last 4096 bytes |
| StderrTail.Tail.Bounded | go/cmd/evolve/cmd_boundary.go:237-278 | the state never holds more than 40 lines of 4096 bytes and 4096 pending bytes |
| StderrTail.DispatchKeepingTail | go/cmd/evolve/cmd_boundary.go:280-284 | the tail of a step depends on the concatenation of its chunks only |
| StderrTail.RunBoundarySteps | go/cmd/evolve/cmd_boundary.go:219-235 | stops at the first failing step, reports its code, its own tail, and whether an earlier step had released the brake |
| PrefixLines.PrefixLineWriter.Write | go/cmd/evolve/cmd_fleet_logprefix.go:16-31 | prints each line the chunk completes behind the prefix and keeps the fragment |
| PrefixLines.PrefixLineWriter.Flush | go/cmd/evolve/cmd_fleet_logprefix.go:33-41 | prints a fragment as a line of its own, and nothing when there is none |
| PrefixLineRuns.NextKeeps | go/cmd/evolve/cmd_fleet_logprefix.go:16-49 | every step of every writer keeps: whole lines in each sink, then at most the lock holder's prefix in its own |
| PrefixLineRuns.RunInv | go/cmd/evolve/cmd_fleet_logprefix.go:16-49 | that holds in every state of every interleaving |
| PrefixLineRuns.SinkIsMerge | go/cmd/evolve/cmd_fleet.go:165-171 | any number of sinks under one mutex: with the mutex free each is a merge of the whole prefixed lines of its writers, and each writer's lines are its stream split at newlines |
| PrefixLineRuns.CallAlone | go/cmd/evolve/cmd_fleet_logprefix.go:16-41 | the steps of one call, with nobody in between, end with the sink and the buffer that the writer's own method states |
| PrefixLineRuns.LanePrintsItsOutput | go/cmd/evolve/cmd_fleet.go:165-171 | a lane that wrote its output in any chunks and flushed has printed exactly its lines, an unfinished last line included |
| TailWriters.TailWriter.Write | go/cmd/evolve/cmd_composition_wiring.go:95-101 | the buffer is always the last bytes of everything written |
| TailWriters.TailWriter.LastLines | go/cmd/evolve/cmd_composition_wiring.go:103-109 | the last lines of the buffer are those of the whole output if and only if they and the newlines behind them fit |
| TailWriters.LastLinesAre | go/cmd/evolve/cmd_composition_wiring.go:103-109 | of a text whose last line is not empty, the last n lines joined, whatever number of newlines is behind them |
| TailWriters.LastLinesFit | go/cmd/evolve/cmd_composition_wiring.go:95-109 | the same on streams |
| ContractWriters.ErrorLineWriter.Write | go/cmd/evolve/cli_contract.go:62-73 | the remembered line is the last complete line of the stream that carries a message, and all bytes are passed on |
| ContractWriters.ErrorLineWriter.Message | go/cmd/evolve/cli_contract.go:75-88 | the message is that of the last such line of the whole stream, fragment included |
| ContractWriters.NotedExactly | go/cmd/evolve/cli_contract.go:81-88 | a line carries a message unless it is blank, begins with a space or a tab, ends with a colon, has WARN in it, or begins with usage and a colon |
| ContractWriters.EnvelopeLineWriter.Write | go/cmd/evolve/cli_contract.go:182-193 | envelopes, stderr text and the error flag are a function of the lines so far, also after stdout broke |
| ContractWriters.EnvelopeLineWriter.Flush | go/cmd/evolve/cli_contract.go:195-216 | at the end the fragment counts as a line, and emitted is the number of envelopes |
| ContractWriters.EmitLinesSorts | go/cmd/evolve/cli_contract.go:202-216 | each JSON line gives one envelope in stream order, other text that is not blank goes to stderr; a broken stdout keeps a prefix |
| ContractWriters.WorkingStdout | go/cmd/evolve/cli_contract.go:173-216 | on a working stdout no JSON line and no other text is lost |
| ContractWriters.RunStream | go/cmd/evolve/cli_contract.go:95-130 | data envelopes, the closing envelope with its error and warning, the exit code, and the two texts on stderr, whatever the chunks |
| QueueProtocolProofs.NextKeeps | go/cmd/evolve/cli_queue.go:224-278 | every step of any applier, crash included, keeps the invariant of files, histories and holders |
| QueueProtocolProofs.RequestsAreSafe | go/cmd/evolve/cli_queue.go:135-278 | in every reachable state a request is on exactly one shelf, ran at most once, and its shelf tells its exit code |
| QueueProtocolProofs.RequestsArePreserved | go/cmd/evolve/cli_queue.go:238-278 | no request is ever lost, and a run is never taken back |
| QueueProtocolProofs.StrandedForever | go/cmd/evolve/cli_queue.go:143-149 | a request left on the processing shelf by a crash stays there and never runs again |
| QueueOrder.FormatOrder | go/cmd/evolve/cli_queue.go:97 | string order of two time stamps is their chronological order |
| QueueOrder.LessMeans | go/cmd/evolve/cli_queue.go:150-155 | string order is decided by the first place where two strings differ, and a prefix comes first |
| QueueNames.QueuedNamesAreLoaded | go/cmd/evolve/cli_queue.go:61-63 | whatever verb, time and process a request is queued by, its file has a name that is loaded, without blanks |
| QueueNames.FileNamesDiffer | go/cmd/evolve/cli_queue.go:61-63 | two requests share a file name if and only if their verbs read the same with dashes for blanks, their times are the same to the nanosecond, and one process queued them |
| QueueListing.RequestNames | go/cmd/evolve/cli_queue.go:145 | a name is a request's exactly when it is some base with the extension behind it, that is, by its last five characters |
| QueueListing.SortSorts | go/cmd/evolve/cli_queue.go:150-155 | the loaded entries are in order by time stamp, then path, and none is lost or repeated |
| QueueListing.DispatchIsChronological | go/cmd/evolve/cli_queue.go:150-155 | of two loaded requests the one dispatched first was not queued later |
| QueueApply.QueueDirectory.LoadQueue | go/cmd/evolve/cli_queue.go:135-157 | loads exactly the listings that are no directory and whose name is some base with .json behind it, in order by stamp, then name |
| QueueApply.QueueDirectory.ApplyOne | go/cmd/evolve/cli_queue.go:238-269 | claim, run, settle are steps of the protocol, and so is the request that the verb queues itself; which file ends on which shelf for every failure of a rename |
| QueueApply.QueueDirectory.ApplyQueue | go/cmd/evolve/cli_queue.go:224-236 | a whole pass is a run of the protocol; directory, verbs run and count after it |
| QueuePass.PassEmptiesQueue | go/cmd/evolve/cli_queue.go:224-278 | without rename errors every loaded request leaves the queue for the shelf of its exit code, verbs run in listing order, and elsewhere only the requests that the verbs queue are new |
| QueuePass.RequeuedIsQueuedAgain | go/cmd/evolve/cli_queue.go:97-117 | a request that exits as queued is on the requeued shelf, and the request its verb wrote for it waits in the queue |
| QueueApply.QueueDirectory.RunQueueApply | go/cmd/evolve/cli_queue.go:206-222 | the verb from any state of the queue: nothing without a listing, without requests or with a live lane; else a run of the protocol in order, after which, without rename errors, the queue holds no loaded request |
| LogLinks.NextKeeps | go/cmd/evolve/cmd_boundary_log.go:56-111 | every call of any process, crash and restart included, keeps the invariant of the links |
| LogLinks.LegacyLogIsNeverLost | go/cmd/evolve/cmd_boundary_log.go:71-90 | over any interleaving of crashed and retried runs a legacy log keeps a name and no file at a legacy name is overwritten |
| LogLinks.LinksAreOldOrNew | go/cmd/evolve/cmd_boundary_log.go:92-105 | at every call the two links are what they were or what the process makes them |
| LogLinks.CompleteRun | go/cmd/evolve/cmd_boundary_log.go:56-69 | a complete run leaves current at the run and the loop log behind current, the legacy log under the run's legacy name |
| BoundaryLog.FileSystem.MoveLegacyLoopLog | go/cmd/evolve/cmd_boundary_log.go:71-90 | for every call that fails, its calls are a run of the protocol up to the run directory or to giving up; a live loop changes nothing; it fails when the legacy directory or name is taken, else only when a call failed; and what the disk is on success |
| BoundaryLog.FileSystem.ReplaceSymlink | go/cmd/evolve/cmd_boundary_log.go:92-105 | it fails when the path or its temporary name is a directory, else only when a call failed; on success the path is at the new target and the temporary name is free, and on failure nothing but the temporary name has changed |
| BoundaryLog.FileSystem.PrepareBoundaryLog | go/cmd/evolve/cmd_boundary_log.go:56-69 | its calls are a run of the protocol, complete exactly on success; it reports a live run exactly over a regular loop log, fails else when a name is in the way, and only then or when a call failed, so that without faulty calls it succeeds exactly when nothing is in the way; then the chain of links is complete, and however it ends every log keeps a name and no foreign name changes |
| BoundaryLog.RunKeeps | go/cmd/evolve/cmd_boundary_log.go:56-111 | at every call of one run each log keeps a name and every legacy name its file |
| Routing.EditsOneSlot | go/cmd/evolve/cli_routing_edit.go:36-74 | a set edit changes the entry its key names and no other |
| Routing.UnsetsOneSlot | go/cmd/evolve/cli_routing_edit.go:138-175 | an unset changes the entry its key names and no other, but for unsetting all floors |
| Routing.NoFlagIsIgnored | go/cmd/evolve/cli_routing_edit.go:36-93 | an accepted edit shows each value it gives in the entry its key names: chain, model, effort, share and bounds |
| Routing.SetAccepts | go/cmd/evolve/cli_routing_edit.go:36-74 | an edit is accepted if and only if its key names an entry, it gives something, and each flag that it gives has a place there |
| Routing.KeyForms | go/cmd/evolve/cli_routing_edit.go:38 | a key is cut at its first dot, and has no group exactly when it has no dot |
| Routing.UnsetClears | go/cmd/evolve/cli_routing_edit.go:100-175 | an unset leaves nothing of the entry, or the entry without its effort or share; a bare entry goes with its effort |
| Routing.UnsetClearsWhole | go/cmd/evolve/cli_routing_edit.go:138-175 | unsetting clis, default, after_chain or floors empties that part and nothing else |
| Routing.EditTwice | go/cmd/evolve/cli_routing_edit.go:36-93 | making an edit twice is making it once |
| Routing.UnsetUndoesSet | go/cmd/evolve/cli_routing_edit.go:138-167 | unset after set of an absent entry restores the table if and only if the name does not end like an effort or share key |
| Routing.TierEffortRoundTrip | go/cmd/evolve/cli_routing_edit.go:110-121 | setting and unsetting a tier's effort restores the table if and only if the tier was absent, or had CLIs and no effort |
| Routing.AgentEffortRoundTrip | go/cmd/evolve/cli_routing_edit.go:122-132 | the same for an agent: absent, or with a CLI, model or bound and no effort |
| Routing.CompiledTierRoundTrip | go/internal/policy/cli_routing.go:103-109 | for a tier rule that can be in the file the set keeps such a rule, and the round trip restores the table if and only if no effort was set |
| Routing.CompiledAgentRoundTrip | go/internal/cliroute/headroom.go:36-54 | the same for an agent rule that compiles |
| Routing.EarlierEffortIsLost | go/cmd/evolve/cli_routing_edit.go:110-121 | a tier with a CLI and an effort: a second effort set and unset leaves it without the first |
| RoutingTables.CloneRouting | go/cmd/evolve/cli_routing_edit.go:14-22 | the clone stands for the same table on fresh maps |
| RoutingTables.WithEntry | go/cmd/evolve/cli_routing_edit.go:177-183 | adds the entry in place, on a new map when there was none |
| RoutingTables.SetRoutingKey | go/cmd/evolve/cli_routing_edit.go:36-74 | the in-place edit stands for the edited table; an error changes nothing |
| RoutingTables.UnsetRoutingKey | go/cmd/evolve/cli_routing_edit.go:138-175 | the same for unset |
| RoutingTables.UnsetEffortOf | go/cmd/evolve/cli_routing_edit.go:110-136 | writing the entry without effort and deleting a bare one gives the table of the specification |
| RoutingTables.SetRoutingEdit | go/cmd/evolve/cmd_cli_routing_write.go:237-245 | a set edit of the policy modifies nothing the caller holds, and its result shares no map with it |
| RoutingTables.UnsetRoutingEdit | go/cmd/evolve/cmd_cli_routing_write.go:247-255 | the same for unset |
| Migration.MigrateLegacyKeys | go/cmd/evolve/cli_routing_edit.go:192-201 | the three steps fail exactly when a pin, an excluded family or the router is in the way, and modify nothing the caller holds |
| Migration.AddPins | go/cmd/evolve/cli_routing_edit.go:203-220 | in any order of the pins, all become rules, or some pin has no CLI or a taken name |
| Migration.Moves.MoveTail | go/cmd/evolve/cli_routing_edit.go:222-236 | fallback off becomes stop, excluded families are refused, and the two keys are stripped |
| Migration.Moves.MoveRouterKeys | go/cmd/evolve/cli_routing_edit.go:238-266 | one tier and one free agent name become the router's rule; anything else is refused |
| Migration.RouterMoves | go/cmd/evolve/cli_routing_edit.go:238-266 | key by key: plan_model and propose_model win over model, the two tiers must be one, and the rule of the router is that tier with the CLI, the four keys gone from the block |
| Migration.TailMoves | go/cmd/evolve/cli_routing_edit.go:222-236 | key by key: only a fallback that is false becomes stop, excluded families refuse the migration, and the two keys go from the block |
| Migration.AgentsAreDisjointUnion | go/cmd/evolve/cli_routing_edit.go:192-266 | the new agents are the disjoint union of the old ones, a rule for each pin and at most one for the router, with its CLI and one tier; nothing else of the table changes but after_chain |
| Migration.OtherKeysStay | go/cmd/evolve/cli_routing_edit.go:268-284 | the workflow and router blocks keep every key that is not moved |
| Migration.MigratingTwice | go/cmd/evolve/cli_routing_edit.go:192-201 | migrating the patched policy again is not refused and changes nothing |
| ProfileEffort.MoveProfileEfforts | go/cmd/evolve/cli_routing_effort_migrate.go:30-54 | the loop over the files returns the table and fills the rewrites of the specification, and stops at the first error |
| ProfileEffort.MoveOneHonours | go/cmd/evolve/cli_routing_effort_migrate.go:56-74 | one step changes at most its own agent's effort, never one that is set, and then resolves what the profile declared |
| ProfileEffort.MoveOneRefuses | go/cmd/evolve/cli_routing_effort_migrate.go:56-74 | a step fails if and only if another effort is set already or some override would resolve otherwise |
| ProfileEffortProofs.HonouredExactly | go/cmd/evolve/cli_routing_effort_migrate.go:30-74 | after a whole directory has moved, a profile has what it declared if and only if no later profile of its name brings in a level it does not agree with; the condition is about the profiles and the first table |
| ProfileEffortProofs.AllHonouredExactly | go/cmd/evolve/cli_routing_effort_migrate.go:30-74 | every profile is honoured if and only if none is disagreed with |
| ProfileEffortProofs.MoveAllTracks | go/cmd/evolve/cli_routing_effort_migrate.go:30-74 | which efforts and which agents a whole directory puts into the table, in terms of the first table |
| ProfileEffortProofs.MoveAllHonours | go/cmd/evolve/cli_routing_effort_migrate.go:30-74 | with distinct names the final table gives every profile its level and all its overrides, and loses no effort set before |
| ProfileEffortProofs.DeclaredEffortsResolve | go/cmd/evolve/cli_routing_effort_migrate.go:30-74 | with distinct names, the level that a file declares is what the table gives its agent at the tier it dispatches at, balanced if none is named, and each override is what it gives at that tier |
| ProfileEffortProofs.RewritesExactly | go/cmd/evolve/cli_routing_effort_migrate.go:36-52 | a file is rewritten if and only if it reads as a profile with a name that declares a level or overrides, and then effort_level and effort_overrides are removed from its text |
| ProfileEffort.ResolveOrder | go/internal/policy/effort.go:34-47 | the effort of an agent at a tier is what its rule sets, else what the tier sets, else the tier's default |
| ProfileEffortProofs.SharedNameUndoes | go/cmd/evolve/cli_routing_effort_migrate.go:56-74 | two profiles of one name can both move and the first one's override be lost |
| RoutingMigration.MigrateRoutingEdit | go/cmd/evolve/cmd_cli_routing_write.go:224-235 | fails without a block, and on the first of the two moves that fails; writes to nothing but the rewrites |
| RoutingMigration.MigrationHonours | go/cmd/evolve/cmd_cli_routing_write.go:224-235 | the whole migration honours a profile exactly when the move of the efforts does: no pin's rule and no router's rule takes it away |
| RoutingMigration.RefusedExactly | go/cmd/evolve/cmd_cli_routing_write.go:224-235 | the legacy keys are refused exactly when they were refused before, or a profile's level made a rule for the name of a pin or of the router |
| DetachArgs.DetachChildArgs | go/cmd/evolve/cmd_loop_args.go:263-281 | the loop drops detach, json and log with its value in front of the positional arguments and keeps all else |
| FlagTokens.FlagsAsWritten | go/cmd/evolve/cmd_loop_args.go:160-171 | the parser reads a token as a flag if and only if it is one dash or two, a name, and perhaps = and a value; the value is all behind the first = |
| FlagTokens.NamedAsWritten | go/cmd/evolve/cmd_loop_args.go:283-289 | the rewriting names a token after a flag, with a value or without, if and only if it is so written |
| FlagTokens.SetFlagDroppedAlone | go/cmd/evolve/cmd_loop_args.go:270-278 | detach, json or log with = and any value is dropped, and the next token stays |
| FlagTokens.BareFlagDropped | go/cmd/evolve/cmd_loop_args.go:270-278 | without a value detach and json are dropped alone, and log with the next token |
| FlagTokens.OthersStay | go/cmd/evolve/cmd_loop_args.go:266-278 | every other token stays, and all behind the flags |
| DetachArgsProofs.ChildReadsTheSame | go/cmd/evolve/cmd_loop_args.go:263-289 | for every accepted argument list the child reads the same settings and positionals if and only if no value looks like a launch flag |
| DetachArgsProofs.KeptValues | go/cmd/evolve/cmd_loop_args.go:263-281 | the final flag values are those of the parent without the three |
| DetachArgsProofs.DetachedChild | go/cmd/evolve/cmd_loop_args.go:210-222 | the child's whole command line parses to the parent's values and positionals, relaunch set and the three unset |
| DetachArgsProofs.LoopFlagsKnowLaunchFlags | go/cmd/evolve/cmd_loop_args.go:48-77 | the loop's own flag set is one the theorems speak of |
| DetachArgsProofs.GoalTextIsLost | go/cmd/evolve/cmd_loop_args.go:263-289 | a goal text --json parses for the parent and not for the child |
| BootRefresh.EvolveDir.BootBinaryRefresh | go/cmd/evolve/cmd_loop_boot_refresh.go:123-205 | outcome and marker of a boot, for every way each check and write can end; no re-exec with a live or unverifiable lane, a non-plane executable, a failed rebuild or an unreconciled pin |
| BootRefresh.SameCommitExactly | go/cmd/evolve/cmd_loop_boot_refresh.go:142 | stamp and HEAD name one commit if and only if one is the beginning of the other |
| BootRefresh.ShortStampIsFresh | go/cmd/evolve/cmd_loop_boot_refresh.go:142-144 | a boot whose stamp is a short form of HEAD is not stale and leaves the marker as it is |
| BootRefresh.NextReExecNeedsNewHead | go/cmd/evolve/cmd_loop_boot_refresh.go:167-198 | after a re-exec the next one needs another HEAD |
| BootRefresh.ReExecsAreBounded | go/cmd/evolve/cmd_loop_boot_refresh.go:123-205 | a launch whose markers work re-execs at most once more than HEAD changes |
| BootRefresh.OneReExecPerHead | go/cmd/evolve/cmd_loop_boot_refresh.go:170-173 | while HEAD stands still, at most once |
| BootRefresh.UnboundedWithoutMarkers | go/cmd/evolve/cmd_loop_boot_refresh.go:167-198 | with markers that cannot be written, or not read, there is a launch with any number of re-execs at one HEAD |
| BootRefresh.BoundNeedsMarkers | go/cmd/evolve/cmd_loop_boot_refresh.go:167-198 | every launch keeps the bound if and only if markers can be written and can be read |
| BootRefresh.LeftoverMarkerRefuses | go/cmd/evolve/cmd_loop_boot_refresh.go:142-173 | a current boot leaves the marker, which then refuses one later refresh at the same HEAD |
| LaneBinding.FirstBindingIsFirst | go/internal/core/defectledger/lineage.go:46-54 | the binding found is the first readable one of the scope, and none is found only if there is none |
| LaneBinding.Lane.Settle | go/cmd/evolve/cmd_cycle_lane_resume.go:183-201 | at most one release per id, only of older cycles whose ledger is absent or settled; at the end the first binding left is none, the cycle's own, or recorded |
| LaneBinding.GateAfterSettle | go/internal/core/defectledger/lineage.go:13-39 | the gate then finds no disagreement, and misses the manifest exactly for the cycle's own binding |
| LaneBinding.Lane.Walk | go/cmd/evolve/cmd_cycle_lane_resume.go:128-142 | accepts exactly when every id is there, accepted and not routed away |
| LaneBinding.Lane.Reclaim | go/cmd/evolve/cmd_cycle_lane_resume.go:99-108 | succeeds only holding the whole scope, and otherwise gives the cycle's claims back |
| LaneBinding.Lane.Adopt | go/cmd/evolve/cmd_cycle_lane_resume.go:70-97 | the cycle is taken back if and only if a checkpoint is found and admitted, every item of the scope was free or its own and none is for the operator, and the claim gets every one of them; an attempt is spent exactly when all but the claim held; a resumed cycle holds its whole scope and has settled; a refused one touches no binding and holds nothing it did not hold before, and nothing at all once the attempt is recorded, where claims can be released; no other cycle's claim moves |
| Carryover.ValidateCarryoverDecisions | go/cmd/evolve/cmd_carryover.go:248-271 | accepts exactly the documents with distinct ids, known decisions, reasons and cluster groups |
| Carryover.RemovalIsDecided | go/cmd/evolve/cmd_carryover.go:274-279 | in a valid document an id is removed exactly when its one decision says so |
| Carryover.StateFile.ApplyCarryoverDecisions | go/cmd/evolve/cmd_carryover.go:273-314 | reports what the full pass would report, writes only when an entry goes, and fails without a change |
| Carryover.StateFile.NoOpFastPath | go/cmd/evolve/cmd_carryover.go:316-333 | fires exactly when the file reads and no entry is to go |
| Carryover.KeptExactly | go/cmd/evolve/cmd_carryover.go:290-312 | exactly the dropped and clustered entries go; all others, without an id or no object included, stay in order |
| Carryover.EntriesAreConserved | go/cmd/evolve/cmd_carryover.go:290-312 | before is after plus dropped plus clustered |
| Carryover.NothingSwept | go/cmd/evolve/cmd_carryover.go:316-333 | where the fast path fires, the full pass has the same result |
| Carryover.FastPathKeepsState | go/cmd/evolve/cmd_carryover.go:285-312 | there the full pass leaves the state alone if and only if it has a list already |
| Carryover.SecondApplication | go/cmd/evolve/cmd_carryover.go:273-333 | a second application takes the fast path and changes nothing |
| SoakMeter.Meter.Observe | go/cmd/evolve/cmd_fleet_soak_pool.go:54-61 | busy is the integral of the live count's step function so far, peak its maximum |
| SoakMeter.BusyBounds | go/cmd/evolve/cmd_fleet_soak_pool.go:54-61 | busy lies between 0 and the peak for the whole run |
| SoakMeter.BusyIsLaneTime | go/cmd/evolve/cmd_fleet_soak_pool.go:54-61 | summed over the changes of the count, busy is the ends of the lanes less their starts |
| SoakMeter.UtilizationIsAShare | go/cmd/evolve/cmd_fleet_soak_pool.go:35-40 | utilization is the share of lane time in the whole width, lies between 0 and 1, and is 1 exactly when the width was full for the whole time |
| SoakMeter.PassedReachedWidth | go/cmd/evolve/cmd_fleet_soak_pool.go:42-44 | a run passes if and only if it had lanes, all of them ok, and its greatest live count was the width wanted |
| TrackedIndex.AddParents | go/cmd/evolve/cmd_inbox.go:302-304 | the parent walk ends for every path and adds exactly the directories above it |
| TrackedIndex.BuildIndex | go/cmd/evolve/cmd_inbox.go:297-305 | the index holds exactly the tracked files and the directories above one |
| TrackedIndex.LintDeadPaths | go/cmd/evolve/cmd_inbox.go:292-314 | warns of exactly the declared paths that are no tracked file and above none, in order |
| TrackedIndex.TopIsAlwaysGone | go/cmd/evolve/cmd_inbox.go:302-312 | a path that cleans to the top of the tree is always reported |

## Left out

- Git, make, exec, process signals, file locks and the network: only whether a call succeeds is an input where a
  protocol needs it.
- Help text, tables, warning texts, usage checks and the printing of results.
- The engines that are not in the command layer (orchestrator, fleet pool, inbox mover, ledger chain): their effects
  appear as parameters or as abstract state, such as the claimer, the releaser and the ledger of a cycle.
- The meaning of escapes in a JSON key is a parameter of the member scan, and so is the decoding of a profile file; a
  decoder that matches a key in another letter case is not followed into the removal, which wants the exact key.
- Bytes that are no UTF-8 in JSON strings: the scanner takes any byte from 32 on in a string, as the decoder does.
- Trimming of Unicode blanks and the test for valid JSON are parameters of the two contract writers.
- ContractWriters.RunStream: the order in which the two texts mix on stderr, and the message of an envelope that cannot be
  written; of the run of a verb that does not stream, nothing is modelled.
- PrefixLineRuns.SinkIsMerge: errors of a sink.
- QueueProtocolProofs.RequestsAreSafe: names of requests are unique; two requests of one verb, one nanosecond and one
  process would be one file, and only those (`FileNamesDiffer`).
- QueuePass.PassEmptiesQueue: a verb of the pass queues at most one request, under a name that is new.
- QueueOrder.FormatOrder: years of four digits, and stamps that the program itself wrote.
- LogLinks.LegacyLogIsNeverLost: a name is reported absent only when it is absent; nothing outside the protocol
  creates or removes the names.
- BoundaryLog.FileSystem.PrepareBoundaryLog: a directory counts as one that cannot be removed, though an empty one at a
  temporary name could be; a link where a directory is wanted counts as being in the way; a look at the loop log that
  fails is one that finds no file.
- Migration.MigrateLegacyKeys: the policy file is a value of typed blocks, already parsed and with its keys spelled
  exactly, which the parser of the policy sees to; re-encoding the file is not modelled.
- ProfileEffort.MoveProfileEfforts: the table is a value here, because every step clones the map before it writes; that
  a rewritten file declares no effort any more is not connected to the decoding of profiles.
- DetachArgs.DetachChildArgs: the flag parser is modelled from its documentation; conversion of values is a parameter,
  and the per-agent override flags count as two repeatable string flags.
- BootRefresh.ReExecsAreBounded: one launch at a time on a state directory. A HEAD shorter than the twelve characters
  that the messages print does not occur.
- LaneBinding.Lane.Settle: nothing rebinds an id while it runs, and a release that reports success has unbound it.
- LaneBinding.Lane.Adopt: the claims of other lanes land between the check and the claim, and nowhere else.
- SoakMeter.UtilizationIsAShare: floating point is exact here, and a duration does not overflow.
- TrackedIndex.LintDeadPaths: path cleaning is a parameter that yields cleaned paths, with forward slashes.
- Carryover.ValidateCarryoverDecisions: which texts are blank is a parameter.
