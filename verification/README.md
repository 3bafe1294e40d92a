# WorkspaceGuard, verified

A Dafny model of the parts of WorkspaceGuard whose behaviour is hardest to see from reading one
function: the regular-expression engine that searches run on, the crash-recoverable recycle bin, the
life of an execution (its record, its history, its two stores, the race between running and
cancelling, the permits of the concurrency limit), the bounded log, caches and output buffers, and the
walks over the workspace. `dafny verify dfyconfig.toml` checks all of it.

Where the program changes state step by step, so does the model: classes with the same fields, the same
loops, the same order of checks. Each method is proved against a specification on values, and what the
program is for is proved about that specification.

| files | what they model |
|---|---|
| `CharSets`, `RegexSyntax`, `RegexParser`, `RegexGrammar`, `RegexMeaning`, `RegexLaws`, `Nfa`, `LiteralPatterns`, `SafeRegex` | character classes; abstract syntax, denotation and concrete grammar; the recursive-descent parser; what a written pattern means, and what that is for patterns of every construct; the automaton and what it accepts; the literal fast path; building by patching, and searching |
| `Trash`, `TrashSafety`, `TrashBlocking`, `TrashQuota`, `TrashManager` | the disk and the steps of every operation and of recovery; what holds over all runs with crashes; which crashes block the bin; the quotas; the operations themselves, with a crash possible before every step |
| `Executions`, `ExecutionHistory`, `ExecutionStore`, `ExecutionRows`, `SqliteStore` | records, events and transitions; the history validator; the in-memory store; rows and their decoding; the database store as tables |
| `ExecutionRace`, `RunOutcome`, `Permits`, `PermitHistory` | completion against cancellation in every interleaving; how a run selects its outcome and what becomes of it; permits handed from leases to service sessions; what in a run loses a permit or holds up shutdown |
| `TaskLog`, `BoundedOutput`, `LruOrder`, `ArtifactStore`, `ResultCache` | the service log with absolute cursors; bounded capture; least-recently-used order; the artifact store; the result cache |
| `LineSearch`, `DirectoryScan`, `AccessPolicy`, `Snapshots`, `Profiles` | chunked line search; bounded directory scans; blocking rules; the two snapshot walks; inheritance of execution profiles |

## How the world outside is modelled

- A crash: `TrashManager` carries the number of atomic file-system steps it has left to live, so every
  theorem over all runs covers a crash after any step, recovery included. An I/O error that the code
  turns into an exception stops a transaction in one of the same states.
- Threads: `ExecutionRace` and `Permits` are state machines over the reads, commits and lock-protected
  sections of the threads; every order of these steps is a run.
- Nobody but the trash manager writes to the workspace or to the trash store, during its calls and
  between them.
- Eviction from the store may take any record at any time; the in-memory store takes the oldest finished
  ones (`ExecutionStores.RetentionKeeps`).
- Clocks, random ids, cancellation and stop callbacks, failing renames, read sizes: parameters, usually
  a function from the number of the poll to its answer.
- SHA-256 is a digest without collisions; case folding is any function that lower-cases ASCII; the
  UTF-8 decoder is any machine fed byte by byte whose last output holds no line break; a glob is any
  predicate on names.
- Metadata and intents are values; which paths may be opened, restored to or named in metadata are
  three predicates.

## What the code does that one would not expect

Each of these is proved, with its exact condition, not assumed away.

- An event history is accepted by its own validator exactly when the accepted calls recorded
  non-decreasing times (`ExecutionHistory.HistoriesAreComplete`): `_transitioned_record`
  (src/workspace_guard_mcp/execution_store.py:1001-1045) never compares with the previous time.
- A cancellation noticed only behind the polling loop (src/workspace_guard_mcp/task_runner.py:567) is
  never announced; the commit of such a run is refused and its execution stays unfinished exactly when
  the loop ended for its exit, its output or its deadline and nothing else went wrong
  (`RunOutcomes.LateCancellationIsStuck`).
- Reconciling after a restart fails exactly when the clock is behind the start of an unfinished
  execution (`SqliteStores.ReconcileUnfinished`).
- A monitor whose session table still lists an execution that the store has evicted raises before it
  gives its permit back (src/workspace_guard_mcp/task_manager.py:1700-1707): the permit is lost exactly
  when that happens, or a callee of the monitor raises what it does not catch, and no rollback takes the
  release, or when a rollback raises holding it
  (`PermitHistories.PermitLostExactly`, `PermitHistories.EvictionLosesPermit`).
- Shutdown asks the store for the record of everything that it cancels
  (src/workspace_guard_mcp/task_manager.py:1091-1101, 1271-1283), also of retained sessions that ended long
  ago. It raises exactly when such a record was evicted before; then it stops no runtime that comes later
  in its lists, and every other call of shutdown waits for ever (`PermitHistories.ShutdownRaisesWhen`,
  `PermitHistories.FailedForEver`, `PermitHistories.EvictionFailsShutdown`). Otherwise it returns exactly when
  every session that it awaits was ended, and waits for ever for one whose monitor or rollback raised
  before (`PermitHistories.ShutdownReturnsWhen`, `PermitHistories.ShutdownCanReturn`,
  `PermitHistories.ShutdownHangs`).
- Some entries no recovery ever clears, and with one of them every later `trash_file` is refused
  (`TrashBlocking.BlockedForever`). In a run they arise exactly from a trash that crashed around its
  first metadata write or that wrote metadata for a path which metadata may not name, crashed or not;
  from a restore that crashed in the write of its intent; and from a recovery that crashed between
  unlinking the metadata of an incomplete staging entry and removing its directory
  (`TrashBlocking.BlockedExactly`, `TrashBlocking.HowBlockingHappens`, `TrashBlocking.HowRestoreBlocks`).
- One recovery pass is not enough exactly when it rolls a restore back while an identical copy is at
  the original path (`TrashSafety.OnePassSettlesUnless`).
- The report of purge cleanup is inverted (src/workspace_guard_mcp/trash.py:560): it reports exactly when
  an entry could be cleaned up completely or there are too many, and then the `trash_file` behind it is
  refused (`TrashManagers.TrashManager.RecoverPurging`, `TrashManagers.InvertedReportRefuses`).
- The log says that something was dropped when one chunk exactly fills the empty buffer
  (`TaskLogs.TaskLogBuffer.Valid`, src/workspace_guard_mcp/task_manager.py:130-155).
- The depth limit on profile inheritance counts what is not resolved yet, so whether a chain of more
  than 128 profiles is accepted depends on the order of declaration: exactly when every declared name
  adds at most 128 ancestors to those of the names before it (`Profiles.ProfileResolver.ResolveAll`,
  `Profiles.OrderMatters`).
- A directory named like an example environment file may be listed but nothing in it may be read
  (`AccessPolicies.ExceptionEndsAtDirectories`).
- A scan reports its budget as exhausted also when it had just seen the last entry
  (src/workspace_guard_mcp/workspace.py:1066-1067).
- A search whose last allowed chunk is also the one in which it is cancelled reports the byte budget
  (src/workspace_guard_mcp/workspace.py:876-878, `LineSearches.LineSearch.Honest`).
- Artifacts are evicted to make room for a set even if publishing that set then fails
  (`ArtifactStores.EphemeralArtifactStore.Publish`).

## Model

| member | source | states |
|---|---|---|
| CharSets.Compile | src/workspace_guard_mcp/safe_regex.py:27-68 | Compiling a character class yields the folded literals and the sorted, merged ranges of the specification `Compiled`, whose meaning is the next row. |
| CharSets.CompiledMeaning | src/workspace_guard_mcp/safe_regex.py:26-76 | For every class, folding and key, bisecting the merged ranges accepts exactly the keys that the written literals and the kept written ranges denote, negation included. |
| CharSets.MergedCovers | src/workspace_guard_mcp/safe_regex.py:50-60 | Merging sorted ranges keeps exactly the covered code points. |
| CharSets.MergedSeparated | src/workspace_guard_mcp/safe_regex.py:50-60 | Merged ranges are non-empty, ordered, and leave a gap of at least one code point between them. |
| CharSets.BisectFinds | src/workspace_guard_mcp/safe_regex.py:70-76 | In separated ranges the one range found by bisecting the starts contains a code point if and only if any range does. |
| RegexGrammar.ParserDecidesGrammar | src/workspace_guard_mcp/safe_regex.py:121-255 | A non-empty pattern is accepted if and only if it spells some tree of the grammar; every tree it spells gives the same node; the whole pattern is consumed. |
| RegexGrammar.ParsedIsSolid | src/workspace_guard_mcp/safe_regex.py:121-255 | Accepted patterns contain no empty node and need at most as many states as they have characters. |
| RegexParser.Parser.Parse | src/workspace_guard_mcp/safe_regex.py:121-129 | The parser object returns the node or the error that the reading function gives for the pattern, and leaves the index there. |
| RegexParser.Parser.Alternation | src/workspace_guard_mcp/safe_regex.py:131-143 | The loop over branches agrees with the recursive reading, errors included. |
| RegexParser.Parser.Sequence | src/workspace_guard_mcp/safe_regex.py:145-153 | The loop over pieces agrees with the recursive reading, and yields the empty node only at a stop. |
| RegexParser.Parser.Repetition | src/workspace_guard_mcp/safe_regex.py:155-163 | At most one quantifier is taken; a second one is an error. |
| RegexParser.Parser.Atom | src/workspace_guard_mcp/safe_regex.py:165-194 | One atom is read as the grammar says, with the error the code raises for each stray character. |
| RegexParser.Parser.CharacterClass | src/workspace_guard_mcp/safe_regex.py:196-234 | The loop over class items agrees with the recursive reading: literals, ranges, an unescaped bracket or hyphen, reversed and empty classes. |
| RegexParser.Parser.Escape | src/workspace_guard_mcp/safe_regex.py:236-251 | An escape yields a control character or the quoted character, or the error for an incomplete or unsupported one. |
| SafeRegexes.SafeRegex.Compile | src/workspace_guard_mcp/safe_regex.py:261-277 | The constructor succeeds if and only if the pattern is non-empty, within both length limits and spelled from some tree of the grammar, and otherwise raises the error of the first check; the states are then the automaton of the parsed node. The limit on states is never hit; the depth of the Python stack is not a limit here. |
| SafeRegexes.Utf8Adds | src/workspace_guard_mcp/safe_regex.py:261-270 | The bytes of a pattern add up, one to four for a character, by its range. |
| SafeRegexes.SafeRegex.Build | src/workspace_guard_mcp/safe_regex.py:357-398 | Building a node appends exactly its states with the dangling exits of the specification, or hits the limit on states exactly when they do not fit. |
| SafeRegexes.SafeRegex.BuildConcat | src/workspace_guard_mcp/safe_regex.py:370-376 | Building the parts one after the other and patching each one's exits to the next start yields the states of the concatenation. |
| SafeRegexes.SafeRegex.BuildAlt | src/workspace_guard_mcp/safe_regex.py:377-385 | Building the branches and chaining them with splits yields the states of the alternation. |
| SafeRegexes.SafeRegex.BuildStar | src/workspace_guard_mcp/safe_regex.py:387-390 | The loop of a star is closed through a split that is its entry and its only exit. |
| SafeRegexes.SafeRegex.BuildPlus | src/workspace_guard_mcp/safe_regex.py:391-394 | A plus is laid out like a star but entered through its body. |
| SafeRegexes.SafeRegex.BuildOptional | src/workspace_guard_mcp/safe_regex.py:395-397 | An option keeps the exits of its body and adds the split's own. |
| SafeRegexes.SafeRegex.Add | src/workspace_guard_mcp/safe_regex.py:400-404 | A state is appended, or the limit is reached and nothing changes. |
| SafeRegexes.SafeRegex.Patch | src/workspace_guard_mcp/safe_regex.py:406-408 | Patching in place redirects every listed exit to the target and touches nothing else. |
| Nfa.EmitCloses | src/workspace_guard_mcp/safe_regex.py:370-408 | Redirecting the exits of a compiled node gives the states of the same node compiled with that target: patching and compiling commute. |
| Nfa.ProgramDecides | src/workspace_guard_mcp/safe_regex.py:304-398 | From every position the automaton reaches its match state if and only if an instance of the node starts there, for every node (stars of nullable bodies and anchors included), folding and text. |
| Nfa.ProgramWired | src/workspace_guard_mcp/safe_regex.py:357-408 | After the last patch no state has a dangling exit. |
| LiteralPatterns.LiteralDecides | src/workspace_guard_mcp/safe_regex.py:100-112 | A pattern of plain text between optional anchors occurs if and only if its characters read at a position that respects the anchors. |
| LiteralPatterns.FoundDecides | src/workspace_guard_mcp/safe_regex.py:291-302 | Equality, prefix, suffix and containment of the prepared strings decide whether such a position exists. |
| LiteralPatterns.LowersCapitals | src/workspace_guard_mcp/safe_regex.py:289-302 | Lower-casing ASCII takes the capitals to their small letters and nothing else. |
| SafeRegexes.LikeCharacters | src/workspace_guard_mcp/safe_regex.py:312-316 | Characters compare as they are, or through their folding when case is ignored. |
| SafeRegexes.SafeRegex.FastSearch | src/workspace_guard_mcp/safe_regex.py:289-302 | The literal fast path returns true exactly when the pattern occurs, also lower-cased on ASCII text: it agrees with the simulation. |
| SafeRegexes.SafeRegex.Closure | src/workspace_guard_mcp/safe_regex.py:329-355 | The returned leaves can reach the match state if and only if one of the initial states can, with anchors followed only at the true ends of the text. |
| SafeRegexes.SafeRegex.Step | src/workspace_guard_mcp/safe_regex.py:312-326 | After one character some state is live if and only if one was before it or a match starts right behind it. |
| SafeRegexes.SafeRegex.Simulate | src/workspace_guard_mcp/safe_regex.py:304-327 | The set simulation returns true exactly when the pattern occurs; when it is stopped early, true still means that it occurs. |
| SafeRegexes.SafeRegex.Search | src/workspace_guard_mcp/safe_regex.py:279-327 | End to end, from the written pattern to the answer: without a stop callback the search returns true if and only if the pattern, read by its grammar tree alone, matches somewhere in the text; with one, a positive answer is still right. |
| RegexMeanings.OccursMeansMatches | src/workspace_guard_mcp/safe_regex.py:121-255 | Whatever tree spells an accepted pattern, the parsed node occurs in a text if and only if the tree matches there: parsing, joining of sequences and alternatives, and compiling of classes preserve the meaning. |
| RegexMeanings.BranchesMeaning | src/workspace_guard_mcp/safe_regex.py:131-194 | For all positions: the node of a written pattern spans exactly what the pattern matches. |
| RegexMeanings.BracketMeaning | src/workspace_guard_mcp/safe_regex.py:26-76 | A compiled bracket expression accepts exactly the keys that its written parts list, or the others if it is negated. |
| RegexLaws.ControlEscapes | src/workspace_guard_mcp/safe_regex.py:236-251 | For every folding and text: the patterns of a backslash and n, r or t match exactly where a newline, a carriage return or a tab is. |
| RegexLaws.QuotingEscapes | src/workspace_guard_mcp/safe_regex.py:236-251 | A backslash before any other character that may be quoted matches exactly where that character is. |
| RegexLaws.EscapesInBrackets | src/workspace_guard_mcp/safe_regex.py:196-251 | The same escapes between brackets, and between brackets that open with a caret, where they ask for any other character. |
| RegexLaws.PlainCharacters | src/workspace_guard_mcp/safe_regex.py:165-194 | Every character that needs no quoting matches exactly where it is. |
| RegexLaws.RangeLaw | src/workspace_guard_mcp/safe_regex.py:196-234 | A range of characters matches exactly where one between its ends is, a negated one where another is. |
| RegexLaws.RepetitionLaws | src/workspace_guard_mcp/safe_regex.py:155-163 | Between anchors a starred character matches the texts of that character alone, a plus the non-empty ones, a question mark those of length one at most. |
| RegexLaws.DotLaw | src/workspace_guard_mcp/safe_regex.py:165-194 | A dot takes any one character. |
| RegexLaws.AnchoredCharacters | src/workspace_guard_mcp/safe_regex.py:165-194 | A caret asks for the beginning and a dollar for the end of the text. |
| RegexLaws.SequenceLaw | src/workspace_guard_mcp/safe_regex.py:145-153 | Two characters in a row match side by side. |
| RegexLaws.ChoiceLaw | src/workspace_guard_mcp/safe_regex.py:131-143 | A bar offers a choice, also inside a group. |
| RegexLaws.RefusedAtOnce | src/workspace_guard_mcp/safe_regex.py:165-194 | Whatever follows, a leading quantifier, brace, closing bracket or closing parenthesis is refused with its own error. |
| RegexLaws.RefusedEscapes | src/workspace_guard_mcp/safe_regex.py:236-251 | An escape that is cut off, and one of a character that may not be quoted, are refused with their own errors, whatever follows. |
| RegexLaws.RefusedInside | src/workspace_guard_mcp/safe_regex.py:131-194 | So are a second quantifier, a missing branch, and a group that is empty or left open. |
| RegexLaws.RefusedClasses | src/workspace_guard_mcp/safe_regex.py:196-234 | So are classes that are empty, left open, or run backwards. |
| TrashSafety.NothingIsLost | src/workspace_guard_mcp/trash.py:98-702 | Over every run of calls, each possibly crashing at any step of itself or of its recovery, a content that no purge removes stays in a workspace file, in staging or in the items. |
| TrashSafety.SlotsSettle | src/workspace_guard_mcp/trash.py:513-702 | Two recovery passes bring every entry, whatever state it is in, to a fixed point. |
| TrashSafety.RecoveryConverges | src/workspace_guard_mcp/trash.py:513-702 | A third pass changes neither workspace files nor staging nor items. |
| TrashSafety.OnePassSettlesUnless | src/workspace_guard_mcp/trash.py:597-702 | One pass settles an item if and only if it does not roll a restore back while an identical copy is at the original path. |
| TrashSafety.CallsKeepDisjoint | src/workspace_guard_mcp/trash.py:98-702 | No id is ever both in staging and among the items. |
| TrashSafety.RestoreIsAllOrNothing | src/workspace_guard_mcp/trash.py:219-320 | A restore that crashed after any step ends, after two passes, with exactly one of restored file and trash item, unless an identical copy is at the original path; other files are untouched. |
| TrashSafety.TrashIsAllOrNothing | src/workspace_guard_mcp/trash.py:98-179 | A trash that crashed after any step ends, after one pass, with the file in place or its payload in the bin; the record is readable exactly when metadata may name the path. |
| TrashSafety.TrashThenRestore | src/workspace_guard_mcp/trash.py:98-320 | A file that was trashed can be restored to its path, and then the disk is what it was. |
| TrashSafety.TrashThenPurge | src/workspace_guard_mcp/trash.py:98-383 | Or it can be purged, and then only the file is gone, once the directory in purging is cleaned up. |
| TrashSafety.RestoreOrder | src/workspace_guard_mcp/trash.py:273-295 | Every step of a restore is one change: the payload goes only when the file is in its place, the metadata behind it, the intent behind that, the directory last; nothing comes back. |
| TrashSafety.RestoreTouches | src/workspace_guard_mcp/trash.py:273-295 | A restore touches nothing but its entry and the file at its destination, which is the payload. |
| TrashSafety.TrashOrder | src/workspace_guard_mcp/trash.py:141-170 | A trash writes its metadata first, then moves the file into the described directory, and only then publishes it. |
| TrashBlocking.StuckStagedIs | src/workspace_guard_mcp/trash.py:565-595 | Recovery keeps and reports a staging entry whatever workspace and items hold if and only if its metadata is missing or unreadable, its record is unreadable, or its original could never be found. |
| TrashBlocking.StuckItemIs | src/workspace_guard_mcp/trash.py:597-702 | The same for an item: an exact, checkable condition for no recovery ever helping, whatever the workspace holds. |
| TrashBlocking.HowBlockingHappens | src/workspace_guard_mcp/trash.py:141-170 | A trash that is accepted by a bin in order and crashes after step k, or completes, leaves a stuck entry if and only if it crashed around the first metadata write or the path is one that metadata may not name and the metadata is written; otherwise every entry can be mended. |
| TrashBlocking.HowRestoreBlocks | src/workspace_guard_mcp/trash.py:273-295 | A restore that crashes after step k leaves a stuck entry if and only if it crashed in the write of its intent; otherwise every entry can be mended. |
| TrashBlocking.PurgeStaysTidy | src/workspace_guard_mcp/trash.py:322-383 | A purge, wherever it crashes, leaves no entry that needs mending. |
| TrashBlocking.MendedBinIsClean | src/workspace_guard_mcp/trash.py:513-702 | When every entry can be mended, the second full pass is without reports and leaves the bin in order: nothing but a stuck entry blocks for good. |
| TrashBlocking.BlockedExactly | src/workspace_guard_mcp/trash.py:98-702 | In every run of full passes and calls from a bin in order, with crashes anywhere, the bin is blocked if and only if one of these steps was taken, or a recovery crashed between unlinking the metadata of an incomplete staging entry and removing its directory; otherwise every entry can be mended. |
| TrashBlocking.BlockedForever | src/workspace_guard_mcp/trash.py:98-702 | With a stuck entry every later `trash_file` is refused, whatever happens in between, and the entry stays stuck. |
| TrashQuota.CallKeepsQuota | src/workspace_guard_mcp/trash.py:565-742 | Every call, wherever it crashes, keeps the entries in staging and items and their payload bytes within the settings. |
| TrashQuota.QuotaHolds | src/workspace_guard_mcp/trash.py:103-170 | With fixed settings the two limits hold in every run. |
| TrashQuota.TrashFillsUp | src/workspace_guard_mcp/trash.py:98-140 | A file is accepted if and only if it is the one expected, every record can be read, the id is new, and the bin is within both limits afterwards: it may be filled up to them. |
| TrashManagers.TrashManager.TrashFile | src/workspace_guard_mcp/trash.py:98-179 | The call moves the disk as the transition relation allows; it is done only after a clean pass with every check met; a refusal names the check that failed behind a clean pass, and an operation conflict within the quota has one of four causes; if purge cleanup has something to report the call crashes or is refused. |
| TrashManagers.InvertedReportRefuses | src/workspace_guard_mcp/trash.py:541-563 | There is a bin within its quota whose entries report nothing and in which the trash would be accepted, but purge cleanup, having finished, reports: the call is refused for that alone. |
| TrashManagers.TrashManager.StageAndPublish | src/workspace_guard_mcp/trash.py:141-170 | The transaction leaves the disk after exactly the number of steps it lived through. |
| TrashManagers.TrashManager.RestoreTrashedFile | src/workspace_guard_mcp/trash.py:219-320 | The same for a restore, to the given destination or the original path; a refusal carries the code of the first check that fails. |
| TrashManagers.TrashManager.LinkAndRemove | src/workspace_guard_mcp/trash.py:273-295 | The restore transaction leaves the disk after exactly the number of steps it lived through. |
| TrashManagers.TrashManager.PurgeTrashedFile | src/workspace_guard_mcp/trash.py:322-383 | A purge removes the item of the id and nothing else, and says that cleanup is pending exactly when its directory is still in purging; a refusal carries the code of the first check that fails. |
| TrashManagers.TrashManager.Recover | src/workspace_guard_mcp/trash.py:513-539 | A pass that crashes anywhere leaves each entry on its own recovery path; a pass with nothing to report was a full one; within the quota every pass is, and it reports if and only if purge cleanup does or some entry's recovery path does. |
| TrashManagers.TrashManager.RecoverPurging | src/workspace_guard_mcp/trash.py:541-563 | Purge cleanup touches nothing outside the purge directory; it reports if and only if some entry could be cleaned up completely, or there were more than the entry limit. |
| TrashManagers.TrashManager.RecoverStagingItem | src/workspace_guard_mcp/trash.py:565-595 | The steps on a staging entry are those of its recovery path, up to the crash, and what is reported is what the path says. |
| TrashManagers.TrashManager.RecoverFormalItem | src/workspace_guard_mcp/trash.py:597-638 | The same for an item. |
| TrashManagers.TrashManager.RecoverWithoutMetadata | src/workspace_guard_mcp/trash.py:640-663 | The same for an item that lost its metadata. |
| TrashManagers.TrashManager.RecoverRestoreIntent | src/workspace_guard_mcp/trash.py:665-702 | The same for an item with a restore intent. |
| TrashManagers.RefusedUnlessAccepted | src/workspace_guard_mcp/trash.py:219-383 | Restore and purge have exactly one code for every call they do not accept, and none for one they do. |
| TrashManagers.TrashManager.RecoverStaging | src/workspace_guard_mcp/trash.py:535-536 | The loop over the staging entries, in any order and up to the entry limit, leaves each treated entry at the end of its path, the one it crashed in somewhere along it, and the others alone. |
| TrashManagers.TrashManager.RecoverItems | src/workspace_guard_mcp/trash.py:537-538 | The same for the items. |
| TrashManagers.TrashManager.LoadRecords | src/workspace_guard_mcp/trash.py:704-742 | All records are readable exactly when the call says so, and the bytes it adds up are those that the records claim. |
| TrashManagers.TrashManager.CleanupPurgingItem | src/workspace_guard_mcp/trash.py:1236-1260 | Known files go, then the directory unless a leftover remains; what is returned is whether something remains. |
| ExecutionHistory.Validate | src/workspace_guard_mcp/execution_store.py:925-998 | The validator loop decides the declarative definition: headless, complete, or corrupt. |
| ExecutionHistory.HistoriesAreComplete | src/workspace_guard_mcp/execution_store.py:925-1045 | Whatever calls an execution sees, its history has at most five events and is complete if and only if no accepted call recorded a time before an earlier one. |
| ExecutionHistory.TracedIsComplete | src/workspace_guard_mcp/execution_store.py:925-998 | What a store keeps is complete exactly when the event times are in order. |
| ExecutionHistory.PagesReadAll | src/workspace_guard_mcp/execution_store.py:316-336 | Following the cursors reads every event behind the first cursor once and in order, for every page size. |
| ExecutionHistory.TerminalForever | src/workspace_guard_mcp/execution_store.py:200-295 | A finished execution never changes again; rejected calls change nothing. |
| ExecutionHistory.EndsOnce | src/workspace_guard_mcp/execution_store.py:200-295 | However many threads complete and cancel an execution, a service that is rolled back while its monitor ends it included, and in whatever order their calls come: one ending at most is accepted, and exactly one if the execution has ended. |
| Executions.TransitionRecords | src/workspace_guard_mcp/execution_store.py:1001-1045 | An accepted transition records state, reason, exit code, resources, times, the published summary of each crash reason, one event and the manifest, argument by argument. |
| Executions.CancellationRecords | src/workspace_guard_mcp/execution_store.py:255-295 | An accepted request for cancellation records its reason, its time and two events, and changes nothing else. |
| Executions.TransitionRefused | src/workspace_guard_mcp/execution_store.py:200-253 | Which transitions are refused, each error with its exact condition and its precedence, from the side of the later state. |
| ExecutionStores.InMemoryExecutionStore.Create | src/workspace_guard_mcp/execution_store.py:179-189 | The new store is the old one with the execution added, or unchanged with the error; the new execution has its one event, no artifacts and no manifest. |
| ExecutionStores.InMemoryExecutionStore.Get | src/workspace_guard_mcp/execution_store.py:191-198 | The record, or unknown. |
| ExecutionStores.InMemoryExecutionStore.Transition | src/workspace_guard_mcp/execution_store.py:200-253 | The whole new state after a compare-and-set: only this execution changes, and only if every check passes; then the oldest finished executions beyond the limit go. The record that is stored and returned takes over every argument; who the execution is does not change; given, recorded and fallback times in this order; its event and its manifest. |
| ExecutionStores.InMemoryExecutionStore.RequestCancellation | src/workspace_guard_mcp/execution_store.py:255-295 | The same for a cancellation request with its two events, spelled out. |
| ExecutionStores.InMemoryExecutionStore.PruneTerminal | src/workspace_guard_mcp/execution_store.py:297-306 | Exactly the oldest finished executions beyond the limit are dropped, from all four dictionaries. |
| ExecutionStores.RetentionKeeps | src/workspace_guard_mcp/execution_store.py:297-306 | Retention never drops an unfinished execution, drops the oldest finished ones first, and leaves at most the limit of finished ones. |
| ExecutionStores.InMemoryExecutionStore.ListEvents | src/workspace_guard_mcp/execution_store.py:316-336 | A page, with whether the history is complete, or the error for a negative cursor, a bad limit or an unknown execution. |
| ExecutionStores.ListRefused | src/workspace_guard_mcp/execution_store.py:316-336 | A reading is refused if and only if the cursor is negative, the page is not of one to a hundred events, or the execution is unknown, in this order. |
| ExecutionStores.InMemoryExecutionStore.ListArtifacts | src/workspace_guard_mcp/execution_store.py:338-345 | The manifest and whether it is complete. |
| ExecutionRows.RecordRoundTrip | src/workspace_guard_mcp/execution_store.py:1167-1243 | Reading the row of a valid record gives the record. |
| ExecutionRows.ReadRowsAreWritten | src/workspace_guard_mcp/execution_store.py:1183-1243 | A row that can be read is the row of what was read: decoding is injective. |
| ExecutionRows.EventRoundTrip | src/workspace_guard_mcp/execution_store.py:1202-1252 | Reading the row of a valid event gives the event. |
| ExecutionRows.ColumnsHold | src/workspace_guard_mcp/execution_store.py:1183-1200 | Every column of a row holds the field that it is named after, with the texts of the enumerations. |
| ExecutionRows.RowFitsWhen | src/workspace_guard_mcp/execution_store.py:1183-1200 | A row can be written if and only if the exit code and the nine counters are signed 64-bit numbers. |
| ExecutionRows.StateNames | src/workspace_guard_mcp/execution_store.py:1183-1200 | The texts that the tables hold for states. |
| ExecutionRows.ReasonNames | src/workspace_guard_mcp/execution_store.py:1183-1200 | And for reasons that come from outside or from a limit. |
| ExecutionRows.CrashNames | src/workspace_guard_mcp/execution_store.py:1183-1200 | And for reasons of crashes. |
| ExecutionRows.EventColumnsHold | src/workspace_guard_mcp/execution_store.py:1202-1213 | The same for events. |
| ExecutionRows.EventKindNames | src/workspace_guard_mcp/execution_store.py:1202-1213 | The texts that the tables hold for kinds of events. |
| SqliteStores.SqliteExecutionStore.Create | src/workspace_guard_mcp/execution_store.py:355-385 | The tables keep representing the entries, with the execution added or nothing changed. |
| SqliteStores.SqliteExecutionStore.Get | src/workspace_guard_mcp/execution_store.py:387-399 | The record that the entries have. |
| SqliteStores.SqliteExecutionStore.Transition | src/workspace_guard_mcp/execution_store.py:401-513 | Statement by statement, the tables end up representing the entries after the in-memory transition, except for numbers and artifact ids the database cannot take; then nothing changes. The same statement about the record that is stored and returned. |
| SqliteStores.SqliteExecutionStore.RequestCancellation | src/workspace_guard_mcp/execution_store.py:515-604 | The same result, record and events as in memory. |
| SqliteStores.SqliteExecutionStore.ListUnfinished | src/workspace_guard_mcp/execution_store.py:606-620 | The same set of records as in memory. |
| SqliteStores.SqliteExecutionStore.ListEvents | src/workspace_guard_mcp/execution_store.py:622-655 | The same pages, completeness and errors as in memory. |
| SqliteStores.SqliteExecutionStore.ListArtifacts | src/workspace_guard_mcp/execution_store.py:657-711 | The same manifest, as a set, and none of the consistency errors can arise. |
| SqliteStores.TablesAgreeUnless | src/workspace_guard_mcp/execution_store.py:401-513 | An accepted in-memory transition means the same in the database if and only if its numbers fit 64 bits and no other execution owns one of its artifact ids. |
| SqliteStores.ReconcileUnfinished | src/workspace_guard_mcp/execution_store.py:853-869 | After a restart every unfinished execution is crashed with the reason of the restart; this fails if and only if the clock is behind the start of one of them, and then those treated before it are restarted and all others as they were. |
| SqliteStores.NothingStaysUnfinished | src/workspace_guard_mcp/execution_store.py:853-869 | Afterwards nothing is unfinished, with the reason, the published summary and the time of the restart recorded and nothing else changed; what was finished is unchanged. |
| Executions.TransitionEventsAreValid | src/workspace_guard_mcp/execution.py:160-190 | Whenever the record after an allowed transition is valid, the events appended with it are valid too. |
| Executions.ValidRecords | src/workspace_guard_mcp/execution.py:234-365 | A record is valid if and only if lengths, order of times, phase, reason and summary fit, each said from the side of the field. |
| Executions.ValidEvents | src/workspace_guard_mcp/execution.py:367-430 | The same for events of each kind. |
| Executions.ValidResources | src/workspace_guard_mcp/execution.py:197-232 | Usage adds up, and growth is told exactly when the final size is known. |
| ExecutionRace.OneEnding | src/workspace_guard_mcp/task_manager.py:1348-1427 | In every interleaving of the running thread with any number of cancelling threads at most one terminal transition commits, exactly one once the running thread is through; the history stays complete; no cancelling thread fails. The record is not evicted meanwhile. |
| ExecutionRace.CancellationDecides | src/workspace_guard_mcp/task_manager.py:1359-1427 | If a cancellation committed first, the execution ends cancelled for that reason or timed out; without one it never ends cancelled. |
| ExecutionRace.FailsOnlyUnsuited | src/workspace_guard_mcp/task_manager.py:1378-1427 | The running thread fails only on a target that does not suit the state it read, and then nothing was committed. |
| ExecutionRace.UnsuitedFails | src/workspace_guard_mcp/task_manager.py:1378-1427 | And such a target does fail when nobody overrules it. |
| ExecutionRace.SuitableIsValid | src/workspace_guard_mcp/task_manager.py:1378-1427 | Whether an ending can be committed is decided by a check on state, reason and exit code that the caller can make beforehand. |
| ExecutionRace.RunnerProgresses | src/workspace_guard_mcp/task_manager.py:1348-1427 | The running thread is through after at most ten of its own steps, whatever the others do. |
| ExecutionRace.StartIsRecorded | src/workspace_guard_mcp/task_manager.py:1348-1357 | Marking an execution that is still starting records the time it started at, and nothing about who it is changes. |
| ExecutionRace.EndingIsRecorded | src/workspace_guard_mcp/task_manager.py:1378-1427 | Whenever the running thread ends the execution, the record has the state, reason, exit code, resources and artifacts it wanted, and the time it had looked at. |
| RunOutcomes.UncontestedEnding | src/workspace_guard_mcp/task_manager.py:1378-1427 | With nobody in its way the completing thread turns every ending but a timeout into a cancellation that is already recorded; otherwise the execution ends as wanted if that suits, and is left as it was if not. |
| RunOutcomes.ContestedEnding | src/workspace_guard_mcp/task_manager.py:1408-1424 | A completing thread that was overtaken by a cancellation ends the execution as cancelled for its reason, a timeout too. |
| Permits.PermitsConserved | src/workspace_guard_mcp/task_manager.py:1111-1269 | Free permits, active leases, unreleased sessions and releases on their way always add up to the limit; no permit is given back twice; the semaphore is never over-released. |
| Permits.PermitsComeBack | src/workspace_guard_mcp/task_manager.py:1229-1346 | Once the threads of an execution are gone its permit is back if and only if its rollback did not raise while holding it and its monitor did not raise before anyone took it. |
| PermitHistories.PermitLostExactly | src/workspace_guard_mcp/task_manager.py:1229-1346 | Over runs: once the threads of an execution are gone its permit is lost if and only if its rollback raised while it held the release, or its monitor raised, because the record of a listed session was missing or in a callee whose exception it does not catch, and the service was never rolled back. |
| PermitHistories.MonitorRaisesWhenEvicted | src/workspace_guard_mcp/task_manager.py:1700-1707 | Over runs: a monitor that gets as far as pruning raises there if and only if the record of a session listed then was evicted earlier in the run. |
| PermitHistories.EvictionLosesPermit | src/workspace_guard_mcp/task_manager.py:1194-1269 | There is a run with limit one in which no callee raises anything uncaught and eviction alone loses the only permit. |
| PermitHistories.ShutdownReturnsWhen | src/workspace_guard_mcp/task_manager.py:1067-1109 | Over runs: with the threads of all awaited executions gone and nothing left that it can ask for, shutdown has returned or can return if and only if every awaited record was still there when it was asked for and every awaited session was ended by its monitor or by its rollback. |
| PermitHistories.ShutdownCanReturn | src/workspace_guard_mcp/task_manager.py:1067-1109 | With the threads of all awaited executions gone, some continuation of the run lets shutdown return if and only if every record that it has yet to ask for is still there and every awaited session was ended. |
| PermitHistories.ShutdownRaisesWhen | src/workspace_guard_mcp/task_manager.py:1091-1101 | Over runs: shutdown has raised if and only if some record that it asked for had been evicted before. |
| PermitHistories.FailedForEver | src/workspace_guard_mcp/task_manager.py:1070-1106 | Once shutdown has raised it asks, stops and waits for nothing more, and no later call of shutdown ever returns. |
| PermitHistories.EvictionFailsShutdown | src/workspace_guard_mcp/task_manager.py:1067-1109 | There is a run in which eviction of the record of an ended service alone makes shutdown raise: a service that is still serving is neither asked to cancel nor stopped, and a second call waits. |
| PermitHistories.ShutdownHangs | src/workspace_guard_mcp/task_manager.py:1067-1109 | An awaited session whose threads are gone without having ended it keeps shutdown and all later calls from ever returning; once it has nothing left to ask for shutdown waits for ever. |
| PermitHistories.ListedExactly | src/workspace_guard_mcp/task_manager.py:1700-1707 | Over runs: a session is listed from its hand-over on until it is rolled back or pruned, and at no other time. |
| PermitHistories.ThreeLooks | src/workspace_guard_mcp/task_manager.py:1359-1376 | A request of shutdown looks one record up, at most three times. |
| PermitHistories.WaitingAreCounted | src/workspace_guard_mcp/task_manager.py:1084-1086 | Every later call of shutdown that has not returned is waiting. |
| Permits.EveryPermitReturns | src/workspace_guard_mcp/task_manager.py:1569-1707 | With a store that evicts nothing and callees that raise only what is caught, it is back exactly once. |
| Permits.ListedAreKnown | src/workspace_guard_mcp/task_manager.py:1194-1269 | Without eviction the record of every retained session is there. |
| Permits.ShutdownSettles | src/workspace_guard_mcp/task_manager.py:1067-1109 | After shutdown returned no lease is active, and everything it waited for has given its permit back, lost it in a raising rollback, or is about to give it back. |
| RunOutcomes.FinalizeSpoilsOnlySuccess | src/workspace_guard_mcp/task_manager.py:1725-1742 | Collecting artifacts and cleaning up can only spoil a success, for the reason that they report. |
| TaskLogs.TaskLogBuffer.Append | src/workspace_guard_mcp/task_manager.py:130-155 | The buffer holds exactly the last bytes of the tagged history up to its capacity, through every append. |
| TaskLogs.TaskLogBuffer.Trim | src/workspace_guard_mcp/task_manager.py:157-172 | Trimming whole chunks and then a part of one restores that. |
| TaskLogs.TaskLogBuffer.ReadAt | src/workspace_guard_mcp/task_manager.py:174-209 | A read returns, stream by stream, the retained bytes from the cursor on, at most one page, and reports truncation exactly when the cursor is behind what was dropped. |
| TaskLogs.FollowingReadsAll | src/workspace_guard_mcp/task_manager.py:174-209 | Following `next_cursor` while the log grows reads every byte of each stream once and in order, unless a read reports truncation. |
| TaskLogs.PagesCatchUp | src/workspace_guard_mcp/task_manager.py:174-209 | In a log that stands still, following the cursor reaches the end after exactly as many reads as there are pages left, and `has_more` is false from then on only. |
| TaskLogs.PageMeans | src/workspace_guard_mcp/task_manager.py:174-209 | Byte for byte: a page holds what is behind the cursor and still there, 65536 bytes at most, and reports truncation exactly when a byte behind the cursor is gone. |
| TaskLogs.StreamsKeepOrder | src/workspace_guard_mcp/task_manager.py:174-209 | Every byte belongs to the stream that it was written to, in its place. |
| RunOutcomes.RunLoop | src/workspace_guard_mcp/task_runner.py:510-575 | The polling loop ends in the first round with something to end it; only the first thing wrong in that round counts; of what is noticed late everything but the deadline is added; the cancellation is announced exactly when the loop itself saw it. |
| RunOutcomes.OutcomeMeans | src/workspace_guard_mcp/task_runner.py:510-606 | From the rounds of the loop to the final target: a run succeeds if and only if its last round saw nothing but exit code zero, nothing was found late and collecting and cleaning up went well; it times out, fails without a reason, or comes out as cancelled exactly under the stated conditions on the last round and the ending. |
| RunOutcomes.ReasonsMean | src/workspace_guard_mcp/task_runner.py:510-606 | Every reason if and only if its cause is there and nothing that goes before it: the monitor, the cleanup, the limits on workspace, artifact policy and artifacts, a cancellation, the output, the deadline; of a success the cleanup afterwards and the collection. Exit code, resources and manifest are those of the run. |
| RunOutcomes.StatesOfReasons | src/workspace_guard_mcp/task_runner.py:577-606 | And the state that each reason goes with. |
| RunOutcomes.RunningTakesAllButCancelled | src/workspace_guard_mcp/task_runner.py:567-606 | A running execution can be ended with every outcome of a run except, always, one that comes out as cancelled. |
| RunOutcomes.CancellingTakesAll | src/workspace_guard_mcp/task_runner.py:567-606 | Once the cancellation is recorded every outcome of a run can be committed. |
| RunOutcomes.LateCancellationIsStuck | src/workspace_guard_mcp/task_runner.py:510-606 | From the polling loop to the record, uncontested: a run whose cancellation the loop saw ends as cancelled for that reason whatever else went wrong; one whose cancellation the loop overlooked has its commit refused and leaves the execution running; every other run ends it as decided. Exit code, resources, artifacts and finishing time are recorded in both cases. |
| BoundedOutputs.BoundedOutput.Append | src/workspace_guard_mcp/task_runner.py:333-351 | What is kept of the two streams is their part of the first `limit` bytes of both together; something counts as truncated exactly when there was more; only output of the runtime is counted as observed. |
| LineSearches.LineSearch.SearchFile | src/workspace_guard_mcp/workspace.py:823-879 | For every chunking, the matches are those among the first lines of the whole decoded file, and all of them if neither a limit nor a stop intervened; the reason to stop is the first there was, except that a chunk that uses up the bytes replaces it. |
| LineSearches.LineSearch.SearchChunk | src/workspace_guard_mcp/workspace.py:845-862 | Cutting a chunk into lines and keeping the last piece pending continues the lines of the whole text. |
| LineSearches.LineSearch.FinishFile | src/workspace_guard_mcp/workspace.py:863-879 | What is pending at the end is a line unless it is empty. |
| LineSearches.LineSearch.ShouldStop | src/workspace_guard_mcp/workspace.py:85-97 | A reason to stop, once there, stays; otherwise cancellation counts before the deadline and the deadline before the bytes. |
| LineSearches.SplitSeparates | src/workspace_guard_mcp/workspace.py:845-862 | Splitting at newlines and joining again is the identity, and no piece holds a newline. |
| LineSearches.SplitContinues | src/workspace_guard_mcp/workspace.py:845-862 | Splitting a longer text goes on from the last piece of the shorter one. |
| LineSearches.StripTwice | src/workspace_guard_mcp/workspace.py:882-887 | Stripping carriage returns first does not change what is left after stripping white space. |
| LineSearches.FoundPrefix | src/workspace_guard_mcp/workspace.py:823-879 | The matches among the first lines are a prefix of all matches. |
| LineSearches.FoundMeans | src/workspace_guard_mcp/workspace.py:845-887 | A match is reported if and only if its line without carriage returns at the end is accepted; it has the number of the line and its text without white space at the end. |
| LineSearches.FoundInOrder | src/workspace_guard_mcp/workspace.py:845-879 | Matches are reported from the first line to the last, each once. |
| DirectoryScans.Scanner.ScanDirectory | src/workspace_guard_mcp/workspace.py:1022-1073 | Of the entries it saw the scan keeps the smallest ones in order, counts the rest as dropped and the unreadable ones as skipped, with one more for a listing that breaks off; it stops short only when the budget is spent or the callback said so. |
| DirectoryScans.SmallestSnoc | src/workspace_guard_mcp/workspace.py:1056-1065 | Offering the candidates one by one to a bounded sorted list keeps exactly the first ones of all of them sorted. |
| DirectoryScans.SmallestMeaning | src/workspace_guard_mcp/workspace.py:1022-1073 | What is kept is in order, and nothing that is left out comes before any of it. |
| DirectoryScans.KeptInOrder | src/workspace_guard_mcp/workspace.py:109-111 | In what is kept folders come first, then folded names go upwards, and names where those are equal. |
| DirectoryScans.PrecedesMeans | src/workspace_guard_mcp/workspace.py:109-112 | Names are compared by the first character in which they differ. |
| DirectoryScans.Scanner.IterFiles | src/workspace_guard_mcp/workspace.py:984-1020 | Only files that can be reached are yielded, and all of them in the order of the walk unless the budget ran out or the callback said stop; no entry is dropped. |
| DirectoryScans.WalkReaches | src/workspace_guard_mcp/workspace.py:984-1020 | The walk yields exactly the files behind a path of shown directories that are not ignored. |
| AccessPolicies.BlockingPattern | src/workspace_guard_mcp/access_policy.py:186-209 | The pattern returned is that of the first rule that matches the path or an ancestor, and there is one exactly when the path is blocked. |
| AccessPolicies.JoinedPaths | src/workspace_guard_mcp/access_policy.py:205-207 | What a rule with a slash looks at is written from the top, with one slash between two parts. |
| AccessPolicies.SplitJoined | src/workspace_guard_mcp/access_policy.py:205-207 | Splitting that text at the slashes gives back the parts. |
| AccessPolicies.ExactRuleBlocks | src/workspace_guard_mcp/access_policy.py:205-207 | A rule that matches the text of one path and no other blocks exactly that path and what is below it. |
| AccessPolicies.ExactNameBlocks | src/workspace_guard_mcp/access_policy.py:194-203 | A rule that matches one name and no other blocks exactly the paths in which that name occurs. |
| AccessPolicies.BlockingInherits | src/workspace_guard_mcp/access_policy.py:186-209 | What blocks a path blocks everything below it, also under the exception for example files. |
| AccessPolicies.ExceptionEndsAtDirectories | src/workspace_guard_mcp/access_policy.py:186-209 | A directory named like an example file is not blocked by `.env.*`, but all its contents are. |
| Snapshots.WalkSeesExactly | src/workspace_guard_mcp/task_snapshot.py:110-170 | The pruned walk creates exactly the directories and regular files that are unblocked and lie behind real, unignored directories. |
| Snapshots.BytesAreCopied | src/workspace_guard_mcp/task_snapshot.py:222-253 | The bytes that count against the budget are the length of everything that the walk copies. |
| Snapshots.SnapshotBuilder.CopyDirectory | src/workspace_guard_mcp/task_snapshot.py:110-170 | The recursive walk creates these, counted in entries and bytes, or stops for a budget they exceed. |
| Snapshots.SnapshotBuilder.CopyPortable | src/workspace_guard_mcp/task_snapshot.py:255-293 | The worklist walk creates the same. |
| Snapshots.SnapshotBuilder.CopyContent | src/workspace_guard_mcp/task_snapshot.py:222-253 | The byte budget is never exceeded, and refuses only content that does not fit. |
| Snapshots.SnapshotBuilder.ClaimEntry | src/workspace_guard_mcp/task_snapshot.py:312-318 | An entry is refused exactly beyond the limit. |
| Profiles.ProfileResolver.Resolve | src/workspace_guard_mcp/task_config.py:618-649 | Memoised resolution with a stack ends, and succeeds if and only if the profile stands on an acyclic, fully known chain that composes and is not too deep from here; the result is the composition along the chain. |
| Profiles.ProfileResolver.ResolveAll | src/workspace_guard_mcp/task_config.py:612-653 | Resolving all profiles succeeds if and only if every profile stands and every declared name has at most 128 ancestors, itself included, that no name declared earlier has; the results are the compositions along the chains and never depend on the order. |
| Profiles.ShortChainsFit | src/workspace_guard_mcp/task_config.py:612-653 | With chains of at most 128 profiles every order of declaration meets that condition. |
| Profiles.ParentsFirstFits | src/workspace_guard_mcp/task_config.py:612-653 | With parents declared first chains of every length meet it. |
| Profiles.OrderMatters | src/workspace_guard_mcp/task_config.py:612-653 | There are 129 profiles with one order of declaration that is accepted and one that is refused. |
| Profiles.ToolsOfChain | src/workspace_guard_mcp/task_config.py:674-690 | A tool is granted if and only if some ancestor grants it and nobody nearer starts the list afresh. |
| Profiles.ValuesOfChain | src/workspace_guard_mcp/task_config.py:696-710 | Image, access and the permission for arbitrary commands are those of the nearest profile in the chain that sets them; without one access is read-only and the permission is not given. The name is the profile's own. |
| Profiles.RootStands | src/workspace_guard_mcp/task_config.py:655-672 | A root stands if and only if it names an image and some tools and gives the permission that its tools need. |
| Profiles.ChildStands | src/workspace_guard_mcp/task_config.py:674-725 | A profile that extends one that stands does so itself if and only if it adds no tool that it inherits, and the outcome has tools and the permission for them. |
| Profiles.StandsOnParent | src/workspace_guard_mcp/task_config.py:674-725 | Nothing stands on a parent that does not. |
| Profiles.ResolvedObeysRule | src/workspace_guard_mcp/task_config.py:709-720 | Whatever resolves authorises a tool, and arbitrary commands only where they are allowed. |
| Profiles.CyclesHaveNoRoot | src/workspace_guard_mcp/task_config.py:622-627 | Nobody on an inheritance cycle has a root. |
| ArtifactStores.EphemeralArtifactStore.Publish | src/workspace_guard_mcp/artifact_store.py:151-206 | A set is admitted whole or not at all; expired sets go, then least recently used ones and no more than needed; index, executions, files and byte counter stay in step, what survives keeps its bytes, and every record describes its artifact. |
| ArtifactStores.EphemeralArtifactStore.MakeRoom | src/workspace_guard_mcp/artifact_store.py:163-167 | The eviction loop ends and drops the shortest run of oldest executions after which the new set fits. |
| ArtifactStores.EphemeralArtifactStore.ListExecution | src/workspace_guard_mcp/artifact_store.py:208-221 | The live execution of this owner, which becomes the most recent; otherwise nothing. |
| ArtifactStores.EphemeralArtifactStore.ReadArtifact | src/workspace_guard_mcp/artifact_store.py:223-250 | The bytes kept under the id of an artifact of a live execution of this owner; a miss means there is none, or a malformed id, which is refused before anything expires. |
| ArtifactStores.PublishedStays | src/workspace_guard_mcp/artifact_store.py:151-250 | Over any run of calls, each of which keeps the bytes of what survives and adds new sets, the bytes under an id that stays present are those published. |
| ArtifactStores.EphemeralArtifactStore.EvictExpired | src/workspace_guard_mcp/artifact_store.py:387-394 | Exactly the expired executions go, the others keep their order. |
| ArtifactStores.EphemeralArtifactStore.Remove | src/workspace_guard_mcp/artifact_store.py:401-409 | One execution goes with its artifacts from index, files and counter. |
| ResultCaches.ResultCache.PutText | src/workspace_guard_mcp/result_cache.py:106-142 | A text that fits is admitted after expired and, oldest first, as few other texts as needed are gone; count and bytes stay within bounds. |
| ResultCaches.ResultCache.Get | src/workspace_guard_mcp/result_cache.py:144-160 | The text while it lives, for its owner, which becomes the most recently used; a malformed id is refused before anything expires. |
| ResultCaches.PutThenGet | src/workspace_guard_mcp/result_cache.py:106-160 | Over every run of puts and gets behind a put: as long as none evicts it, a text is what a live get finds until it expires. |
| ResultCaches.LeastRecentlyUsedFirst | src/workspace_guard_mcp/result_cache.py:106-186 | Over every run from an empty cache the texts stand in the order in which they were last put or got, so that what eviction takes from the front is the least recently used. |
| LruOrder.FitsExactly | src/workspace_guard_mcp/result_cache.py:121-125 | A new entry fits if and only if both bounds hold with it in place. |
| LruOrder.TouchedMoves | src/workspace_guard_mcp/result_cache.py:144-160 | An entry that is used moves to the end, and the others keep their order. |
| LruOrder.AliveIs | src/workspace_guard_mcp/result_cache.py:188-197 | An entry is alive exactly before its time is up. |
| ResultCaches.ResultCache.UniqueId | src/workspace_guard_mcp/result_cache.py:179-186 | An id that is well formed and free, or sixteen draws that were taken, or a malformed one. |

## Left out

- The server, its transports and tools, authentication, configuration parsing and rendering of results.
- The container back ends, Git, and the sampling monitors: only what they may answer is modelled.
- Descriptors, link and inode checks, modes, times, fsync; the layout and creation of the trash store,
  listing it, the switches that disable it, glob characters in paths and malformed ids and digests.
- JSON, SQL text, schema creation and migration; the check for a changed row after an update, which
  cannot fail inside an immediate transaction.
- Lone surrogates in patterns; regular expressions built from globs; the narrowing path filter.
- Diagnostics other than whether there are any; messages of exceptions.
- Starts that fail before the runtime is up, and exceptions raised by the callback that announces a
  cancellation; what such a run asks for is one of the arbitrary targets of the race.
- Copying artifacts out of the staging area and drawing their ids; media types.
- Decoding of log pages and of captured output to text.
- The tree listing, finding paths, reading and writing files.
- SqliteStores.SqliteExecutionStore.ListArtifacts: states the manifest as a set, because the two stores order it differently.
- SqliteStores.SqliteExecutionStore.ListUnfinished: states a set, because the in-memory order is that of insertion.
- ExecutionRows.RecordRoundTrip: rows hold text and numbers; limits on UTF-8 bytes follow from those on characters and are not stated again.
- TrashSafety.RestoreIsAllOrNothing: requires that every path which may be restored to may also be opened, because the two checks are abstract here.
- TrashBlocking.HowRestoreBlocks: requires the same, for the destination of the restore; `TrashBlocking.BlockedExactly` requires it for all paths.
- TrashBlocking.BlockedExactly: speaks of runs in which no pass is cut short by the entry limit; within the quota none is.
- RunOutcomes.LateCancellationIsStuck: ends with the refused commit; a cleanup that fails for a second time afterwards, or the next restart, would still end the execution as crashed.
- LineSearches.LineSearch.SearchFile: the limit on the size of the output is any predicate on the matches.
- Snapshots.SnapshotBuilder.CopyDirectory: does not model files that change or disappear while they are copied.
- ArtifactStores.EphemeralArtifactStore.ReadArtifact: does not model files removed from the store's directory by someone else.
- DirectoryScans.Scanner.ScanDirectory: a listing that breaks off does so behind the entries it gave, never between them.
- SafeRegexes.SafeRegex.Compile: does not model Python's limit on recursion, which a few hundred nested groups within the limit on length exceed.
- PermitHistories.ShutdownRaisesWhen: a store that fails for another reason than a missing record also makes shutdown raise, and is not modelled.
- Permits.PermitsConserved: the calls that start a runtime and write logs are not steps, because they touch neither permits nor sessions.
