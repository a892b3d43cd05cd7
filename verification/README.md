# Verification of Universal Agent Middleware

A Dafny model of the parts of the middleware where branching, mutable state and unbounded inputs meet, with proofs over
every input, every run or every reachable state.

- **The resident Consumer** (`Ledgers`, `ConsumerProtocol`, `ConsumerSafety`, `ConsumerGuarantees`, `ConsumerProgress`,
  `ConsumerStarts`, `ConsumerRecords`, `Journals`, `TargetLocks`, `ProcessTables`, `ProcessViews`). Handlers, the journal, UAM's attempts, processes, outcome files and
  the death of the Consumer are one transition system; a step is one effect, and anything may happen between two steps.
  An invariant of every reachable state gives the guarantees: an executor that is not shown stopped is not settled, and
  at most one attempt is started and run. The converse is proved too: exactly when an attempt is started, adopted,
  settled and as what, and for which reason it is left open. The journal is a class over the bytes of a file that may be torn anywhere.
- **Ignore files** (`Regexes`, `Globs`, `GlobTranslation`, `IgnoreRules`, `IgnoreFiles`, `IgnorePatterns`). The glob dialect has its own
  syntax and meaning, which mention no regular expression. The three translators are loops over an index, proved
  against functions on the remaining text; those are proved sound and complete for the dialect.
- **Nested-scope authority** (`RootScopes`, `PathAuthority`, `PathAnswers`). Paths are sequences of names and folding is any function.
- **The audit chain** (`AuditChains`, `AuditLogs`, `AuditOutsiders`). Full verification, the appender that reads one line
  backwards, and any interleaving of writers with writes cut short and with files that others replace or truncate.
- **Descriptor walks** (`Kernels`, `DescriptorWalks`, `PathResolutions`, `LinkResolutions`, `StrictWalkers`). The kernel is a class with
  open descriptors; every call sees the tree of its own moment.
- **The snapshot diff** (`IndexListings`, `ListingAcceptance`, `SnapshotDiffs`, `SnapshotMembership`, `Utf8Tails`).

`dafny verify dfyconfig.toml` checks the whole project.

## Hypotheses

- Lives of the Consumer do not overlap, and no other Consumer serves the principal. A `TaskControlError` means that the
  call had no effect. An append that is cut short ends its life. In the protocol a record is then in the journal or it is
  not; `Journals.QueriesReadTheSurvivors` proves that this is all that a later life can see of a torn append.
- A process keeps its PID until it exits; the births that tell processes apart are seen by proofs only. A process that
  leaves the group of its parent does so when it is born: no process changes its group later. A local command stays in
  its process group, which is what a `process-group` handle declares. A group may be empty when it is checked and its
  number used again later, so `StopGate` speaks of the processes that existed at the check. One read of the process
  table is one moment; a process whose parent died may be given another parent at any time.
- JSON and SHA-256 are parameters. `Journals.Lawful` asks that a record is written on one line, read back, and that no
  proper part of it is a record; `AuditLogs.Lawful` asks the like of canonical JSON, with `details` an object with string
  keys. `HeadDeterminesHistory` asks that no two different bodies in the two files share a hash. A file that others
  wrote must have a last line that reads the same without its newline: a line in big-endian UTF-16 does not.
- `octal` in `IndexListings` is Python's `int(text, 8)`: plain digits by their value, anything else in any way.
- A name with a separator in it, which no caller of the descriptor walk passes, is looked up as a whole, and the system
  finds under it whatever it finds.
- `SnapshotDiffs` takes what Git, the filesystem and the rules answer as functions; `sorted` is the listing of the
  unmerged paths. `ReadsWithin` is what `ReadBounded` guarantees.
- `NamesInPlay` and `InjectiveOn` say where folding must keep names apart. That no zone stands before a deeper one
  covering the same path is not assumed but proved of the sort by text length (`RootScopes.DeepestFirst`).

## What is not true

- NO_EXECUTOR_WAS_STARTED does not mean that nothing was spawned where the adapter writes no job file:
  `AgentMayRunUnannounced` gives the run, and `OnlyTheLocalAdapterIsNeverMistaken` the exact condition.
- Not every settled attempt was shown stopped: `OutcomeMayPrecedeExit` gives the run, and `GateNeedsARecord` the exact
  condition, a recorded handle or end.
- A directory may be entered though nothing at or below it is allowed: if two zones have one root and the one behind
  would allow what the one in front denies. `DescendsExactly` gives the exact condition.
- A diff may record one path below another if the listing is not in index order: `OutOfOrderMayNest` gives the listing,
  and `StaysFlatExactly` the exact condition.

## Model

| member | source | states |
|---|---|---|
| ConsumerGuarantees.StopGate | src/universal_agent_middleware/consumer.py:684-785 | In every state that any run reaches: each settlement told to UAM rests on the one handle and the one end record of its journal; its adapter confirmed the stop, or the handle is a process group without an end record, or the observation was made, covered a live server and left something to look for. If an executor of either kind was announced, its root is dead and every process that existed when its group was last looked at is outside the group. If one was announced or its end recorded, every recorded process is dead and none confined to the group is left |
| ConsumerGuarantees.SettledAgentLeftNothing | src/universal_agent_middleware/harness_adapter.py:657-711 | An announced agent is settled only if its server was alive when its tree was read, and the server and everything below it at that moment are dead |
| ConsumerGuarantees.RecordedTreeWas | src/universal_agent_middleware/harness_adapter.py:657-663 | The tree that this speaks of is that of a moment of the same run |
| ConsumerGuarantees.ConfirmedStopIsReal | src/universal_agent_middleware/harness_adapter.py:463-518 | An end record that calls an executor stopped is right: if one was spawned, its group was empty and its root is dead, nothing recorded or confined is left, and of an agent nothing of its tree |
| ConsumerGuarantees.GateNeedsARecord | src/universal_agent_middleware/consumer.py:684-785 | In every run what is settled was shown stopped, for settlements with or without a handle and with or without an end record: exactly if there is a handle or an end record |
| ConsumerGuarantees.UnrecordedEndStaysOpen | src/universal_agent_middleware/consumer.py:708-740 | An announced agent with no EXECUTOR_ENDED record is settled in no later life, whatever outcome file appears |
| ConsumerGuarantees.FlaggedEndStaysOpen | src/universal_agent_middleware/consumer.py:741-765 | An unconfirmed end whose report says that the observation failed or covered no live server is never settled, however complete a later read-back is |
| ConsumerGuarantees.OneAttempt | src/universal_agent_middleware/consumer.py:577-627 | Across any number of lives and deaths the Consumer starts at most one attempt per delivery, and an adapter is only ever run for that one |
| ConsumerGuarantees.AdapterIsCalledOnce | src/universal_agent_middleware/consumer.py:629-658 | When an adapter is called, none was called before for this delivery, nothing was spawned for it and nothing settled |
| ConsumerGuarantees.AdoptedNeverRan | src/universal_agent_middleware/consumer.py:787-801 | An attempt adopted from a dangling intent never had its adapter run, and no process of it exists |
| ConsumerGuarantees.NoExecutorMeansNoProcess | src/universal_agent_middleware/harness_adapter.py:373-390 | With the local command adapter NO_EXECUTOR_WAS_STARTED is true: no process of the attempt was ever started, because job.json is durable before the spawn |
| ConsumerGuarantees.AgentMayRunUnannounced | src/universal_agent_middleware/harness_adapter.py:860-884 | The same is false of the agent adapter: a run in which the Consumer dies between spawn and announcement settles NO_EXECUTOR_WAS_STARTED while the agent lives |
| ConsumerGuarantees.OnlyTheLocalAdapterIsNeverMistaken | src/universal_agent_middleware/harness_adapter.py:373-390 | NO_EXECUTOR_WAS_STARTED can be relied on in every run exactly for the local command adapter |
| ConsumerGuarantees.SettlementSaysWhatWasRead | src/universal_agent_middleware/consumer.py:684-705 | UAM is told a result, a failure before or after an effect, a stop or that nothing was started, each exactly as the outcome file and the handle had it |
| ConsumerGuarantees.SettledAttemptIsKnown | src/universal_agent_middleware/consumer.py:684-705 | From the reading that a settlement rests on to the moment UAM has answered, in every reached state: the attempt read as live is known to UAM, is the Consumer's own, and is still the one that the journal calls started and not ended; the assertion of line 687 never fails |
| ConsumerGuarantees.OutcomeMayPrecedeExit | src/universal_agent_middleware/consumer.py:684-705 | The run for the case with neither: an unannounced local command that wrote its outcome is settled as done while it lives |
| ConsumerProgress.SettlesExactly | src/universal_agent_middleware/consumer.py:684-785 | In every reached state in which a handler has read a live attempt: some continuation of its steps, with UAM accepting, tells UAM what is due and closes the attempt in the journal exactly if the group is empty, the stop gate is open, nothing recorded of an unconfirmed end is in the table, and it is not the case of a job without outcome and handle. What is due covers all four outcomes with and without a handle: finished work is submitted. No continuation tells anything else, but that a result could not be made of finished work |
| ConsumerProgress.NotedExactly | src/universal_agent_middleware/consumer.py:684-785 | Each advisory that an open attempt can be left with, exactly if its cause holds: still running, unknown, end not recorded, observation failed, server gone before it, table unreadable, a recorded process there or changed, unprovable |
| ConsumerStarts.StartsExactly | src/universal_agent_middleware/consumer.py:565-657 | One handling of a delivery gives either kind of adapter an attempt exactly if neither journal nor UAM knows of one, the schema is right and the delivery is not active; intent and start are journalled in that order |
| ConsumerStarts.AdoptsExactly | src/universal_agent_middleware/consumer.py:787-801 | A dangling intent is adopted exactly if the last attempt is the Consumer's own and active, and cleared exactly if there is none |
| ConsumerStarts.FinishesExactly | src/universal_agent_middleware/consumer.py:565-569 | What the journal calls live is settled on, whatever schema and state the delivery has, and nothing else is |
| ConsumerStarts.ConfirmsExactly | src/universal_agent_middleware/harness_adapter.py:463-518 | An agent's adapter can call its server stopped exactly if the observation was made and covered a live server, the group is empty, and no recorded PID is in the table |
| ConsumerStarts.LocalConfirmsExactly | src/universal_agent_middleware/harness_adapter.py:366-412 | The adapter of a local command can call it stopped exactly if its group is empty |
| ConsumerStarts.OrdinarySuccess | src/universal_agent_middleware/consumer.py:629-664 | For either kind of adapter a whole run: started, announced, ended, confirmed, and the result submitted with handle and end |
| ConsumerRecords.NoAdvisoryTwice | src/universal_agent_middleware/consumer.py:1006-1009 | Over any number of lives and polls, no advisory of a delivery is followed by the same advisory |
| ConsumerRecords.ReconciledOnce | src/universal_agent_middleware/consumer.py:767-785 | Over any number of lives a stop is recorded as reconciled at most once |
| ConsumerSafety.EveryRunIsSound | src/universal_agent_middleware/consumer.py:565-884 | The invariant of every delivery (its log, attempts, processes, settlements and where its handler stands) holds in every state of every interleaving of handlers, processes, UAM, outside writers and deaths |
| ConsumerSafety.StepKeeps | src/universal_agent_middleware/consumer.py:523-564 | Each single step of the whole system keeps that invariant for all deliveries at once |
| ConsumerSafety.StartKeeps | src/universal_agent_middleware/consumer.py:577-664 | Admission, the intent, the start of an attempt and adoption keep it |
| ConsumerSafety.RunKeeps | src/universal_agent_middleware/harness_adapter.py:366-411 | Every step of an adapter's run, of either kind, keeps it |
| ConsumerSafety.FinalKeeps | src/universal_agent_middleware/consumer.py:684-884 | Every step of settling from durable facts keeps it |
| ConsumerSafety.StopQuestion | src/universal_agent_middleware/consumer.py:707-785 | Where the stop question lets a handler pass, the executor is shown stopped or was never announced |
| Ledgers.LedgersAreIndependent | src/universal_agent_middleware/consumer.py:305-344 | The ledger of a delivery depends on the records of that delivery alone, in their order |
| Ledgers.LiveIsSince | src/universal_agent_middleware/consumer.py:329-341 | Of any journal: an attempt is live in the ledger exactly if it was started and nothing since ended it or started another |
| Ledgers.LedgerTells | src/universal_agent_middleware/consumer.py:335-341 | Of any journal: the handle, the end and the reconciliation are those of the last record of that kind about the live attempt since its start |
| Ledgers.AdvisoryIsLast | src/universal_agent_middleware/consumer.py:342-343 | Of any journal: the advisory is that of the last advisory record |
| Journals.TornWritesAreContained | src/universal_agent_middleware/consumer.py:261-291 | After any history of complete and torn appends the journal holds exactly the complete records and those that lost only their newline, each once and in order |
| Journals.UnendedLineWaits | src/universal_agent_middleware/consumer.py:266-285 | At most the last record, written without its newline, waits for the next append; a closed file holds all survivors |
| Journals.QueriesReadTheSurvivors | src/universal_agent_middleware/consumer.py:464-484 | Every life records its start before it asks anything, so however many lives were cut off, each query answers for all records written whole or up to their newline, and for nothing else |
| Journals.ViewsAgree | src/universal_agent_middleware/consumer.py:300-344 | After any history of writes, tears, queries and new lives, a query answers for every delivery what a fold over the whole file answers |
| Journals.CatchingUp | src/universal_agent_middleware/consumer.py:311-321 | A view that reads on from where it stopped becomes the view of a fresh reading of the whole file |
| Journals.OneMoreWrite | src/universal_agent_middleware/consumer.py:266-275 | An append, cut anywhere, adds its record exactly if all of it but perhaps the newline was written, and never harms an earlier one |
| Journals.Remnant | src/universal_agent_middleware/consumer.py:280-291 | What is left of one record's line is read as the record or as nothing |
| Journals.Journal.Append | src/universal_agent_middleware/consumer.py:261-278 | The new bytes are the line of the record, behind a newline if the file does not end with one, up to where the write stopped; no view changes |
| Journals.Journal.Parse | src/universal_agent_middleware/consumer.py:280-291 | The loop over lines finds the parsable records of the complete lines of a chunk |
| Journals.Journal.Refresh | src/universal_agent_middleware/consumer.py:311-321 | The view afterwards is that of the whole file: offset, count and all ledgers |
| Journals.Journal.Count | src/universal_agent_middleware/consumer.py:300-303 | The number of records of the whole file |
| Journals.Journal.LedgerFor | src/universal_agent_middleware/consumer.py:305-309 | The fold of all records of the delivery in the whole file |
| ByteLines.SplitConcat | src/universal_agent_middleware/consumer.py:284-284 | Splitting a file at once or in pieces that end with a newline gives the same lines, with CR LF as one break |
| ProcessTables.ProcessTree | src/universal_agent_middleware/harness_adapter.py:294-303 | The list that is walked while it grows ends as the root and every descendant, each once, even where parent links form a loop |
| ProcessTables.StillRunning | src/universal_agent_middleware/harness_adapter.py:306-327 | Asked strictly, a recorded process is left out exactly if its PID is in no row; another command line under the PID is flagged, and left out only when not asked strictly |
| ProcessViews.TreesAgree | src/universal_agent_middleware/harness_adapter.py:294-303 | In a table that lists the living processes, the descendants of a PID are exactly the processes below its process by parent links |
| ProcessViews.TableIsObserved | src/universal_agent_middleware/harness_adapter.py:657-663 | What the walk over the table finds is what the protocol lets an observation record: of a server that runs, itself and everything below it |
| ProcessViews.TableAnswers | src/universal_agent_middleware/harness_adapter.py:306-327 | Whether a recorded process is there with its command, or with another one, is in the protocol what the rows under the recorded PIDs say |
| ProcessViews.PidsStayApart | src/universal_agent_middleware/harness_adapter.py:268-291 | In every reached state a PID names one living process, so the table has one row for it |
| TargetLocks.OverlappingJobsExclude | src/universal_agent_middleware/consumer.py:347-380 | In no interleaving of opens, locks, closes, forks and exits do two jobs with an overlapping path hold all their locks at once |
| TargetLocks.LocksOutliveTheConsumer | src/universal_agent_middleware/harness_adapter.py:384-387 | The death of one process takes no lock from a job of which another process inherited a descriptor |
| TargetLocks.LastCopyFreesTheLock | src/universal_agent_middleware/consumer.py:374-380 | A lock is free after a close exactly if that closed every descriptor of its description |
| TargetLocks.EveryRunIsSound | src/universal_agent_middleware/consumer.py:347-372 | A description that was granted its lock has it as long as any process has a descriptor of it |
| TargetLocks.Locker.TryAcquire | src/universal_agent_middleware/consumer.py:361-372 | Whatever other jobs and processes do between its calls, a successful try ends with the job holding the lock of every path, each once however often it was named; a failed try leaves no descriptor of the job, and at some moment of it another job had one of the locks. Where nobody else acts it fails exactly if some file was locked, and then changes nothing |
| TargetLocks.Locker.Release | src/universal_agent_middleware/consumer.py:374-380 | All descriptors of the job are closed, and what others have stays as it was |
| GlobTranslation.CompilesTheDialect | src/universal_agent_middleware/ignore_rules.py:161-218 | A glob is accepted exactly if it is of the dialect, and then its expression matches exactly the paths that the dialect's own reading matches, with the wildcards counted as it has them |
| GlobTranslation.ClassesAgree | src/universal_agent_middleware/ignore_rules.py:221-291 | The scan inside braces and the class translator agree on where a class ends |
| GlobTranslation.ItemsAgree | src/universal_agent_middleware/ignore_rules.py:235-285 | The same for the members of a class, escapes and ranges included |
| GlobTranslation.GlobMeaning | src/universal_agent_middleware/ignore_rules.py:161-218 | The expression of a reading consumes exactly the stretches that the reading matches |
| GlobTranslation.AtomMeaning | src/universal_agent_middleware/ignore_rules.py:168-214 | One literal, wildcard, run or class means the same as an expression and in the dialect; none but a literal matches a separator |
| GlobTranslation.Sound | src/universal_agent_middleware/ignore_rules.py:161-218 | Whatever the compiler accepts has a reading, and the result is the expression of that reading |
| GlobTranslation.Complete | src/universal_agent_middleware/ignore_rules.py:161-218 | Every well-formed reading, as it is spelled, is accepted with its own expression |
| GlobTranslation.CompleteSplit | src/universal_agent_middleware/ignore_rules.py:262-300 | A group as spelled is split into the texts of its alternatives, commas in classes and escapes left alone |
| GlobTranslation.SplitKeepsText | src/universal_agent_middleware/ignore_rules.py:262-300 | What a group is split into, joined again, is its text |
| IgnoreRules.GlobToRegex | src/universal_agent_middleware/ignore_rules.py:161-218 | The loop over the glob, with its counter of wildcards, computes the translation |
| IgnoreRules.ClassToRegex | src/universal_agent_middleware/ignore_rules.py:221-259 | The loop over a class finds the same end, the same ranges and the same refusals as the reading by members |
| IgnoreRules.AlternationToRegex | src/universal_agent_middleware/ignore_rules.py:262-307 | A group becomes the choice of its translated alternatives and is refused where one of them is empty or refused |
| IgnoreRules.ScanGroup | src/universal_agent_middleware/ignore_rules.py:265-297 | The index scan finds the alternatives of a group and where it ends |
| IgnoreFiles.LineMeaning | src/universal_agent_middleware/ignore_rules.py:118-153 | A line becomes a rule exactly if its glob is short enough, of the dialect and has few enough wildcards; the rule then matches what the glob means, and any other pattern line is counted as unsupported |
| IgnorePatterns.FloatingPattern | src/universal_agent_middleware/ignore_rules.py:136-141 | An accepted, unanchored pattern without a separator, other than the bare double star, matches a path exactly when its last component matches the glob |
| IgnoreFiles.OneAlternation | src/universal_agent_middleware/ignore_rules.py:44-80 | The one alternation with its group numbers answers what a scan of the rules for the last match answers, directory-only rules left out for files |
| IgnoreFiles.FirstAlternative | src/universal_agent_middleware/ignore_rules.py:58-80 | The number of the last closed group is that of the first matching alternative |
| IgnoreFiles.FileVerdict | src/universal_agent_middleware/ignore_rules.py:44-111 | The verdict of a whole file is the sign of its last line, in file order, whose glob matches the path |
| IgnoreFiles.ReadableLinesAre | src/universal_agent_middleware/ignore_rules.py:83-99 | Exactly the lines before the first undecodable one are read |
| IgnoreFiles.PatternsAreTheWritable | src/universal_agent_middleware/ignore_rules.py:118-137 | Some line asks for a pattern exactly if its body begins and ends with nothing that would be taken off it, and then a line spelled from the pattern is read back as it |
| IgnorePatterns.EveryLine | src/universal_agent_middleware/ignore_rules.py:118-142 | For every line and every pattern: the line asks for the pattern exactly if, without the spaces at its end, it spells it: marks or an escape for them, the body, and for directories a separator, plain or with a backslash of its own |
| IgnorePatterns.PlainDirectoryIsRead | src/universal_agent_middleware/ignore_rules.py:137-142 | Behind any marks, a body that ends in no backslash and a plain separator are read back as that body, for directories only |
| IgnorePatterns.NoPattern | src/universal_agent_middleware/ignore_rules.py:118-124 | A line asks for nothing exactly if it begins with the comment sign or holds only spaces |
| IgnorePatterns.BelowPattern | src/universal_agent_middleware/ignore_rules.py:145-146 | An accepted pattern that ends in a separator and two stars matches exactly the paths of which some beginning matches it without the stars |
| IgnorePatterns.OtherPatterns | src/universal_agent_middleware/ignore_rules.py:142-146 | Two stars alone match every path; any other anchored pattern, or one with a separator, is read as its own glob |
| IgnorePatterns.EveryPatternCounts | src/universal_agent_middleware/ignore_rules.py:91-111 | Each pattern that a file asks for is one of its rules or counted as skipped |
| IgnorePatterns.CleanedIs | src/universal_agent_middleware/ignore_rules.py:96-99 | One carriage return is taken off a line and one byte order mark off the first, nothing else |
| IgnoreFiles.RuleFromLine | src/universal_agent_middleware/ignore_rules.py:118-153 | One line to one rule, to nothing, or to an unsupported pattern |
| IgnoreFiles.ParseIgnoreFile | src/universal_agent_middleware/ignore_rules.py:83-111 | The rules in file order up to the limit, and the number of patterns that gave none |
| IgnoreFiles.RulesOpenNoGroups | src/universal_agent_middleware/ignore_rules.py:71-80 | No compiled rule opens a group of its own, so group numbers count rules |
| PathAuthority.PocketsComplete | src/universal_agent_middleware/path_authority.py:196-215 | Where folding confuses no names in play, every allowed path has a start, the root or a pocket, from which every directory down to it is allowed; no order of zones is needed |
| PathAuthority.AncestorsDescend | src/universal_agent_middleware/path_authority.py:183-194 | A walk that asks at every directory whether to descend reaches every allowed path |
| PathAuthority.SnapshotIsLive | src/universal_agent_middleware/path_authority.py:104-134 | For a path beneath the root the governing zone of the snapshot is the scope that decides the live authority, and where no zone covers it, its authority is that of the root |
| PathAnswers.AnswersAreLive | src/universal_agent_middleware/path_authority.py:69-134 | Where a zone governs, each operation is answered by the rights of the live effective authority: reading by content, scope search by search, search by both, listing by content or metadata. Where none governs, everything is allowed |
| PathAnswers.RegistryAgrees | src/universal_agent_middleware/root_scope.py:252-258 | There reading is allowed exactly where the registry says that it can read, and scope search where it can search |
| PathAnswers.RightsDecide | src/universal_agent_middleware/path_authority.py:69-134 | For any folding: an operation is allowed exactly if every governing zone has the rights that it needs |
| PathAnswers.ProtectedIsNotRead | src/universal_agent_middleware/path_authority.py:69-79 | For any folding: a governing zone without content refuses reading and searching, and listing too if it has no metadata either |
| PathAnswers.DescendsExactly | src/universal_agent_middleware/path_authority.py:183-194 | A directory is entered exactly if something at or below it is allowed, or is the root of a zone that stands behind a denying one with the same root |
| PathAnswers.PocketsAreListed | src/universal_agent_middleware/path_authority.py:196-215 | A start is listed exactly for each zone that is allowed at its root and not at its parent |
| PathAnswers.ExcludedExactly | src/universal_agent_middleware/path_authority.py:217-237 | Excluded are exactly the roots, below the workspace root, of the zones that lack a right the operation needs and lie within no other such zone |
| PathAuthority.ExclusionFailsClosed | src/universal_agent_middleware/path_authority.py:217-237 | Whatever folding does to names: a path that is refused lies, component by component as folded, in an excluded subtree |
| PathAuthority.ExcludedAreDenied | src/universal_agent_middleware/path_authority.py:217-237 | Only subtrees of denying zones are excluded |
| PathAuthority.AllGoverningAllow | src/universal_agent_middleware/path_authority.py:116-134 | A path is allowed exactly if each zone that governs it, as spelled and as folded, allows it |
| PathAuthority.OneGovernor | src/universal_agent_middleware/path_authority.py:116-131 | Where folding confuses no names, both readings of a path name one zone |
| PathAuthority.OutermostAbove | src/universal_agent_middleware/path_authority.py:217-237 | Above every denying zone stands an outermost one |
| PathAuthority.SnapshotNeverFails | src/universal_agent_middleware/path_authority.py:196-237 | Every zone of a snapshot lies beneath its root, so cutting it by position never fails |
| PathAuthority.Pockets | src/universal_agent_middleware/path_authority.py:196-215 | The loop lists exactly the cut roots of allowed zones whose parent is denied |
| PathAuthority.ExcludedSubtrees | src/universal_agent_middleware/path_authority.py:217-237 | The loop lists exactly the cut roots of outermost denying zones |
| RootScopes.DeepestFirst | src/universal_agent_middleware/root_scope.py:165-174 | In a registry sorted by text length no scope stands before a deeper one that covers the same path |
| RootScopes.DeeperIsLonger | src/universal_agent_middleware/root_scope.py:165-174 | A path strictly below another one is longer as text |
| RootScopes.ViewsAgree | src/universal_agent_middleware/root_scope.py:260-283 | Where folding confuses no names, the first covering scope and the deepest covering one by components are the same |
| RootScopes.BothReadingsGrant | src/universal_agent_middleware/root_scope.py:260-283 | For any folding: a right is granted exactly if the first scope that covers the path as spelled and the deepest that covers it as folded both grant it |
| RootScopes.CoveredByBoth | src/universal_agent_middleware/root_scope.py:260-283 | A path has an authority exactly if a scope covers it as spelled and one covers it as folded |
| RootScopes.NestedIsSorted | src/universal_agent_middleware/root_scope.py:229-250 | The nested scopes keep the order of the registry |
| RootScopes.FoldedWithin | src/universal_agent_middleware/root_scope.py:93-115 | Where folding confuses no names, a path lies within a root as folded exactly if it does as spelled |
| RootScopes.InsertionKeeps | src/universal_agent_middleware/root_scope.py:165-174 | Sorting loses no scope and adds none |
| RootScopes.RootScopeRegistry.AddScope | src/universal_agent_middleware/root_scope.py:290-293 | The new scopes are the old ones and the added one, sorted |
| RootScopes.RootScopeRegistry.ReplaceScopes | src/universal_agent_middleware/root_scope.py:295-300 | The scopes are the given ones, sorted |
| RootScopes.RootScopeRegistry.NestedScopes | src/universal_agent_middleware/root_scope.py:229-250 | The loop finds the scopes strictly inside the root as folded, most specific first |
| AuditChains.LongestValidPrefix | src/universal_agent_middleware/audit.py:51-96 | The report is that of the longest prefix of lines that form a chain: count, head hash and first invalid line; the file is valid exactly if all lines form a chain |
| AuditChains.FailuresAreNamed | src/universal_agent_middleware/audit.py:52-97 | Each of the eight failures is reported exactly if the first line that does not continue the chain has the defect that it names |
| AuditChains.HeadDeterminesHistory | src/universal_agent_middleware/audit.py:51-96 | Two files that verify with one head hash hold the same records, if no two different bodies in them share a hash |
| AuditChains.HeadIsNotGenesis | src/universal_agent_middleware/audit.py:53-75 | The head of a chain with records is never GENESIS |
| AuditChains.VerifyStream | src/universal_agent_middleware/audit.py:51-96 | One pass over the lines computes that report, and its line number is one more than the records counted |
| AuditLogs.AppendKeepsChain | src/universal_agent_middleware/audit.py:128-181 | On a sound file an append succeeds exactly if there is no latch and the record can be encoded, and then the file is the same chain with that one record more |
| AuditLogs.EveryRunKeepsTheChain | src/universal_agent_middleware/audit.py:128-181 | In any interleaving of any writers, restarted and cut short anywhere, the complete lines stay one chain: the first records and one for each success |
| AuditLogs.VerifyAfterAnyRun | src/universal_agent_middleware/audit.py:51-192 | Full verification at the end of any run counts every success, fails only at a torn line, and then nothing is ever written again |
| AuditOutsiders.WritersKeepToTheirFile | src/universal_agent_middleware/audit.py:142-145 | Over any run in which others replace or truncate the file between any two appends: a writer that appended once in its life appends again only to that same file and only if it is as long as the writer left it; on any other it changes nothing and answers that it was replaced or truncated, unless the latch stands |
| AuditOutsiders.RefusalsAreExact | src/universal_agent_middleware/audit.py:140-145 | The latch is the answer exactly if it stands, and the replaced or truncated file exactly if it does not and the writer knows another file or a longer one |
| AuditOutsiders.StrangersVerify | src/universal_agent_middleware/audit.py:146-151 | A writer that knows no file appends only if all of it verifies and is of version 2 |
| AuditOutsiders.ContinuesItsTail | src/universal_agent_middleware/audit.py:99-168 | Whatever others did to the file: an append succeeds only on an empty file or behind a last record that carries its own hash, and continues that record in chain, number and hash |
| AuditOutsiders.MixedRunStaysSound | src/universal_agent_middleware/audit.py:129-182 | Where others leave sound files, whole or torn, the complete lines are a sound chain after every step |
| AuditLogs.TornIsReported | src/universal_agent_middleware/audit.py:64-66 | After a tear, verification reports that line as truncated and keeps the count and the head before it |
| AuditLogs.TornStopsAppends | src/universal_agent_middleware/audit.py:98-105 | After a tear no writer, whether it verified before or not, writes anything |
| AuditLogs.NextOfSound | src/universal_agent_middleware/audit.py:155-168 | The last line alone gives the number, the chain and the head of the whole file |
| AuditLogs.ValidFileIsSound | src/universal_agent_middleware/audit.py:142-152 | A file that verifies as version 2, whose last line reads the same without its newline, can be appended to |
| AuditLogs.ReadLastLine | src/universal_agent_middleware/audit.py:106-115 | Reading backwards in chunks finds what follows the last newline, for any length and any place of the chunk borders |
| AuditLogs.Tail | src/universal_agent_middleware/audit.py:98-126 | The tail is the last record, nothing for an empty file, or the refusal |
| AuditLogs.AuditLog.Append | src/universal_agent_middleware/audit.py:128-181 | File, what the writer knows, and answer after one append, for every refusal and every short write |
| DescriptorWalks.OpenBeneath | src/universal_agent_middleware/descriptor_io.py:184-264 | For every tree that changes between any two calls and every answer of realpath: what is returned was reached by its own names, each found from the directory before it at its own moment, none a link, a parent or denied, and none with a separator if none was given; it is of the wanted kind; its descriptor is the only one left open; on a tree that does not change it is what the names resolve to |
| DescriptorWalks.Walk | src/universal_agent_middleware/descriptor_io.py:194-262 | The loop ends, by hops left and names pending, with every entered directory accounted for |
| DescriptorWalks.TakeLink | src/universal_agent_middleware/descriptor_io.py:217-230 | A link is replaced by the names of its text, from the root again if it is absolute, at most eight times |
| DescriptorWalks.OpenLast | src/universal_agent_middleware/descriptor_io.py:239-255 | The last name is judged by the object that was opened, and closed again if that is of another kind |
| DescriptorWalks.ReadBounded | src/universal_agent_middleware/descriptor_io.py:273-288 | However short the reads are, the whole file is returned exactly if it fits the limit |
| PathResolutions.OwnNamesResolve | src/universal_agent_middleware/descriptor_io.py:184-264 | On a tree that does not change, names resolve to themselves exactly if they reach an object of the wanted kind through real directories |
| PathResolutions.WalkedAgain | src/universal_agent_middleware/descriptor_io.py:255-270 | The names that a walk returned, walked again, give the same object |
| PathResolutions.ResolvedIsReached | src/universal_agent_middleware/descriptor_io.py:199-261 | Whatever links were followed, the returned names reach the object without any |
| LinkResolutions.LinkIsItsText | src/universal_agent_middleware/descriptor_io.py:217-230 | Behind real directories a path through a link resolves as the path with the text of the link in its place, for up to eight links, and is refused at the ninth |
| LinkResolutions.AbsoluteLinkIsReal | src/universal_agent_middleware/descriptor_io.py:223-227 | A link with an absolute text resolves as what `realpath` gives below the root, and escapes if it gives nothing |
| LinkResolutions.ParentTakesBoth | src/universal_agent_middleware/descriptor_io.py:203-208 | A parent behind a real directory resolves as the path without both; at the root it escapes |
| LinkResolutions.StopsExactly | src/universal_agent_middleware/descriptor_io.py:209-249 | Which refusal each name and each kind of object gets behind real directories |
| LinkResolutions.DescendIsReach | src/universal_agent_middleware/git_snapshot.py:318-332 | A strict walk comes to a directory exactly if its names reach it through real directories |
| Kernels.Kernel.CloseAll | src/universal_agent_middleware/descriptor_io.py:262-264 | All entered directories are closed, each once |
| IndexListings.ListingRoundTrip | src/universal_agent_middleware/git_snapshot.py:168-203 | Parsing the printed listing returns the entries, for any number of them and paths of any bytes but NUL |
| ListingAcceptance.AcceptsExactly | src/universal_agent_middleware/git_snapshot.py:168-203 | For every text and every list of entries: the text is parsed as these entries exactly if it spells them one after the other with nothing left over |
| ListingAcceptance.ParseOneMeans | src/universal_agent_middleware/git_snapshot.py:172-202 | One entry is read exactly where its head, its path and its five lines stand, each number in its base |
| IndexListings.ParseIndexListing | src/universal_agent_middleware/git_snapshot.py:168-203 | The loop over positions computes the parse, and ends |
| IndexListings.ReadEntry | src/universal_agent_middleware/git_snapshot.py:172-202 | Each entry ends behind where it began |
| IndexListings.EntryIsRead | src/universal_agent_middleware/git_snapshot.py:172-202 | One printed entry is read back, and exactly it is consumed |
| IndexListings.PrintIsNumber | src/universal_agent_middleware/git_snapshot.py:181-202 | A number printed in a base is read back |
| SnapshotDiffs.EveryPathIsAccountedFor | src/universal_agent_middleware/git_snapshot.py:659-797 | On every returning way each eligible path and each unmerged one is, as often as it is listed, unchanged, left out for a stated reason, or a record of the private index |
| SnapshotDiffs.NumbersAgree | src/universal_agent_middleware/git_snapshot.py:659-797 | Eligible entries and distinct unmerged paths equal unchanged entries, reported omissions and records |
| SnapshotMembership.RecordsExactly | src/universal_agent_middleware/git_snapshot.py:691-797 | From the listing and the worktree alone: unchanged is exactly what is found as the index has it; recorded is exactly each admitted candidate that differs, has room among the candidates, a blob that fits, is read within the budgets, lies below no record, and is absent or could be written |
| SnapshotMembership.OmissionsExactly | src/universal_agent_middleware/git_snapshot.py:660-797 | A path is left out for a reason exactly if the cause of that reason holds of it at its stage |
| SnapshotMembership.AdmittedExactly | src/universal_agent_middleware/git_snapshot.py:660-677 | Admitted are exactly the compared entries that no rule refuses |
| SnapshotMembership.EligibleIsCompared | src/universal_agent_middleware/git_snapshot.py:657-665 | Compared is exactly an entry of stage 0 without unmerged entries of its path, that is no submodule and has neither of the two flags |
| SnapshotMembership.SuspectsExactly | src/universal_agent_middleware/git_snapshot.py:684-700 | Each candidate that differs and has room is looked into, behind those before it |
| SnapshotMembership.NamedAreReported | src/universal_agent_middleware/git_snapshot.py:144-147 | An omission with an admitted name is reported unless as many as there is room for came before |
| SnapshotDiffs.OnlyAdmittedWithinBudget | src/universal_agent_middleware/git_snapshot.py:659-768 | Nothing that a rule refuses is in the changed set or among the records, and the old and new bytes of the changed set stay within the budget |
| SnapshotDiffs.WithinBudget | src/universal_agent_middleware/git_snapshot.py:730-767 | Old and new bytes of the changed set never exceed the total, nor any file its own limit |
| SnapshotDiffs.NoPathBelowAnother | src/universal_agent_middleware/git_snapshot.py:773-797 | With the listing in index order no recorded path lies below another |
| SnapshotDiffs.StaysFlatExactly | src/universal_agent_middleware/git_snapshot.py:659-797 | Whatever the worktree is like, no recorded path lies below another: exactly if no admitted path is listed before one that it lies below, or the listing is refused as too long, or fewer than two candidates may be looked into |
| SnapshotDiffs.OutOfOrderMayNest | src/universal_agent_middleware/git_snapshot.py:776-792 | The listing `a/b`, `a` and a worktree, for which the diff succeeds with both recorded |
| SnapshotDiffs.AboveComesFirst | src/universal_agent_middleware/git_snapshot.py:776-780 | A path comes in byte order behind every path it lies below |
| SnapshotDiffs.RefusedAreNotNamed | src/universal_agent_middleware/git_snapshot.py:137-154 | A path in the report was left out for a reason whose name is admitted |
| SnapshotDiffs.BuildUnstagedDiff | src/universal_agent_middleware/git_snapshot.py:641-797 | The four loops compute the coverage, and the report holds its omissions in order |
| SnapshotDiffs.Omissions.Add | src/universal_agent_middleware/git_snapshot.py:144-147 | One more omission is counted, and named only if its name is admitted and there is room |
| SnapshotDiffs.VerdictIsAffordable | src/universal_agent_middleware/git_snapshot.py:732-767 | A candidate becomes a change only if its old and new bytes fit what is left of the total, and each of them the limit of a file |
| StrictWalkers.StrictWalker.Lookup | src/universal_agent_middleware/git_snapshot.py:306-332 | After any earlier lookups, refused ones too, the answer on a tree that does not change is that of a walk from the root. However the tree changes, the directory returned was reached by the names of the path, each of them found in the directory before it at its own moment and no link; each descriptor dropped is closed once |
| StrictWalkers.StrictWalker.Close | src/universal_agent_middleware/git_snapshot.py:293-298 | Everything the walker opened below the root is closed |
| StrictWalkers.DescendInTwo | src/universal_agent_middleware/git_snapshot.py:318-332 | A walk can stop on the way and go on from there |
| Utf8Tails.TrimKeepsTheLongest | src/universal_agent_middleware/git_snapshot.py:451-470 | However well-formed UTF-8 is cut, the trim keeps its longest well-formed part and drops at most three bytes |
| Utf8Tails.TrimsExactly | src/universal_agent_middleware/git_snapshot.py:451-470 | Of any octets, in whatever encoding: dropped is exactly a leading octet at the end with fewer continuation octets than it announces; where there is none, everything is kept |
| Utf8Tails.TrimIncompleteTail | src/universal_agent_middleware/git_snapshot.py:451-470 | The backward loop over at most four bytes computes the trim |

## Left out

- The fields `_inflight`, `_not_before`, `_strikes` and the thread pool of the Consumer: the protocol lets any delivery's handler take a step at any time, which covers every schedule and back-off; real time is not modelled.
- How a payload for `submit_result` is built from changed files, and what the verification commands answer: a submission is blocked, fails or is made.
- Which rule of the policy admits a delivery: admission answers in any way once there is no earlier attempt.
- ConsumerProtocol: a value that steps replace, not objects updated in place; the classes with their fields are those of the journal, the locks, the registry, the audit log, the kernel and the walker.
- IgnoreFiles.FirstAlternative: the engine's group numbering is modelled for full matches of a choice of captured alternatives, which is all that the compiler emits, not for backtracking inside an alternative.
- IgnoreFiles.ParseIgnoreFile: undecodable bytes arrive as a line without text; the decoding itself is not modelled.
- RootScopes.RootScopeRegistry.AddScope: reloading the configuration file and the policy generation are not modelled.
- AuditLogs.AuditLog.Append: fsync, the advisory lock itself and the creation of directories are not modelled; appends are atomic to each other.
- DescriptorWalks.OpenBeneath: errors of `close` and interrupts between two lines are not modelled; where a part holds a separator, which way the system goes along it is not either.
- TargetLocks.Locker.TryAcquire: the paths are taken once each but not in sorted order, and the hashed name of a lock file is the path itself; `job` is new with every call.
- SnapshotDiffs.OnlyAdmittedWithinBudget: counts what enters the changed set; the bytes of a file that is read and then refused are not counted by the code either.
- SnapshotDiffs.BuildUnstagedDiff: the private repository, the Git processes and checks of the root between the stages are not modelled; where they fail nothing is returned.
- `_same_as_index` and `_classify_unmerged_path`: comparisons of single fields and single-branch checks, which would add easy members; they are parameters.
- StrictWalkers.StrictWalker.Lookup: other errors of the system are one answer, and `lstat` and `observe` on top of it are not modelled.
- `migrate_snapshot` and `initialize_chain`: they copy fields of the report and link a file.
- Release, installer, service, gateway, discovery, index database, name rules and command lines: plumbing and validators around these cores.
