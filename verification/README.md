# A verified model of devharness

devharness runs agent work over an append-only, hash-chained event log: every projection, lock, audit
and retry decision is derived from that log. This project models the parts whose correctness is not
visible from one function body, and proves what they keep over all inputs, all interleavings or all runs.

| module | what it models |
|---|---|
| `JqSyntax`, `JqParser`, `JqReader`, `JqPrinter` | the jqlite query language, its recursive parser as index loops, and a canonical printer |
| `JqGrammar`, `JqLexemes`, `JqBlanks` | the language as a grammar that the parser recognizes, its literals by their spelling, and spaces |
| `JqRoundTrip`, `JqLimits`, `JqOperators`, `JqTable`, `JqCalls`, `JqErrors` | the parser's exact image, round trips, the rejections form by form, and where plain JSON keys and operator messages fall short |
| `JqEval`, `JqLaws`, `JqBuiltins` | the stream evaluator, its composition laws, and what the single steps answer |
| `EventLog` | the hash chain, its check, and what a head hash determines |
| `Projections`, `EventBus`, `Writers` | handlers and replay, the transactional emit, and any number of competing writers |
| `LogEvents`, `SingleWriter` | the events the rest reads, and the lock that is itself a projection |
| `Monitor`, `Violations`, `Findings`, `Sweep`, `Sweepers`, `TrustAudit` | the trace checks, what they are to find and that they do, the sweep that reports into the log it checks, whole and by its statements, and the trusted-memory check on the table of the same log |
| `Dispatch`, `DispatchLaws`, `DispatchRows`, `LateFlags` | the bounded attempt loop around director, verifier and review, and the table of the rows it adds |
| `PlanGraph`, `TopoSpec`, `TopoOrder` | Kahn's algorithm with a sorted ready list against the least topological order |
| `Descendants`, `BranchChain`, `PlanProgress`, `PlanBuild` | dependency closure, base-branch chaining, task selection, the assembly guard, and a whole plan driven on an external target |
| `Relay`, `TornPolls`, `SseText`, `SseBlocks` | the sidecar's poller, broadcast and client as interleaved steps, a poll that fails half way, and the console's stream parser, line by line and block by block |
| `Intake` | the cooldown-based rate limit on outside requests |
| `Trust`, `Memory` | trust grants with pruning, and federated memory export and import |
| `Results`, `Text`, `Sequences`, `Decimal`, `Ordering` | shared values, stripping of text, sequences without repetition, decimal numerals, Python's string order |

Code that works by changing things step by step is written as classes and loops and proved against
functions; what the system promises is then proved about those functions. Where such a function says how a
result is computed, another statement says what the result is without it: the language by its grammar, a
sweep by what is wrong with the rows, an emit by the row it stores, a dispatch by a table of rows, trust by
the latest grant. SHA-256, canonical JSON and JSON decoding are arbitrary functions. That digests are
hexadecimal text is a stated requirement, and instead of assuming that they do not collide, the theorem
about head hashes points out the two rows that do.

Claims that the code does not meet in full are stated with the exact condition under which it does:

- `has("...")` with a plain JSON literal is read back exactly when the key's parentheses balance
  (`JqLimits.PlainKeyRead`).
- `parse_query`'s docstring promises the name for any out-of-scope operator. It is named in front of an
  operand (`JqOperators.LeadingOperatorNamed`), after one that has a step (`JqOperators.OperatorNamed`), and so also
  inside `select` and `map` at any depth (`JqCalls.OperatorInFilters`). It is not named after the bare `.`, between
  brackets, where all text is read as an index (`JqOperators.OperatorInBracket`), between the parentheses of `has`,
  where it is read as a key (`JqCalls.HasCallFails`), and between those of `keys`, `length` or `type`, which are not
  read at all (`JqCalls.NullaryCallFails`).
- The hashed content identifies its event exactly when no field holds a unit separator
  (`EventLog.ContentIdentifies`); nothing in `emit_sync` rejects one in a correlation id.
- A dispatch returns with exactly one terminal unless an attempt is late (`DispatchLaws.ExactlyOneTerminal`): its
  branch commit fails after the terminal (`DispatchLaws.HardCommitExample`, `DispatchLaws.LateCommitExample`), or a cap
  is found exceeded once the work has ended (`DispatchLaws.LateCapExample`).
- The trusted-memory check reports exactly the unverified foreign entries that a `trust` column marks as trusted
  (`Sweep.UntrustedExact`). The memory table has no such column, so it reports none (`Sweep.TrustNeverReported`); with
  one kept by the table's own handlers it would report only this project's own entries (`TrustAudit.AuditReports`).
- An import's entries arrive untrusted, as the docstring of `import_memory` says of all of them, exactly where they do
  not name this project as their source (`Memory.ArrivalTrust`, `Memory.ArrivesTrusted`).
- No key is reported twice by sweeps that take turns (`Sweepers.TurnsReportOnce`); two that overlap can
  (`Sweepers.OverlapReportsTwice`).
- A poll that fails part-way repeats rows (`Relay.TornPollRepeats`). In the schedule of one failed and one full poll a
  streaming client loses its order exactly when its stream lets one of them through (`TornPolls.TornPollReaches`);
  while a row stays unreadable it gets the rows before it again at each poll (`TornPolls.StuckPollsRepeat`).
- "Storage tidiness" of pruning holds in every run of evaluations (`Trust.PruningChangesNothing`), not on
  every table (`Trust.PruneKeepsTrustIff`). No requirement on the sign of the expiry is needed.
- Export and import reproduce a table exactly when each source's creation times are nondecreasing
  (`Memory.ExportImportReproduces`).
- `_external_target_kwargs` promises that every task's worktree has every previously built sibling's work. In
  a run of fresh dispatches, of tasks that have not completed and that nothing completed depends on, that holds
  exactly when no completion's commit failed (`BranchChain.FreshRunsAccumulate`), and driving a plan listed in
  dependency order is such a run (`PlanBuild.PlanAccumulates`). It fails when a task is re-driven right after
  something that depends on it (`BranchChain.RedriveLosesWork`), and can fail when the plan lists a task before what
  it depends on (`PlanBuild.OutOfOrderExample`). A task whose re-drive was denied has no branch that another could start
  from, until it is driven again (`BranchChain.DenialRemovesBase`).

## Model

| member | source | states |
|---|---|---|
| `JqReader.ReadIdent` | jqlite/parser.py:250-270 | the identifier at an index is the longest one, and the index moves just past it; anything else asks for a field name |
| `JqReader.ReadParensAt` | jqlite/parser.py:368-388 | the depth-counting scan returns the text up to the matching parenthesis and the index after it, or the unclosed error |
| `JqReader.ReadBracketAt` | jqlite/parser.py:273-288 | reading a bracket at an index of the whole text agrees with the reading of the remaining text |
| `JqReader.ReadNamedAt` | jqlite/parser.py:291-337 | a named step read by index, its argument parsed recursively from strictly shorter text, agrees with the reading of the remaining text |
| `JqReader.RejectAt` | jqlite/parser.py:217-247 | the rejection of what cannot follow a step: the gap is skipped and an operator or keyword is named |
| `JqReader.ReadSteps` | jqlite/parser.py:182-198 | the index loop that appends one step per turn computes the step list of the whole text, for every text |
| `JqReader.ReadQuery` | jqlite/parser.py:151-198 | stripping, the checks on the first character and the loop together compute the specified parse of every query, which JqGrammar.ParserIsGrammar ties to the grammar |
| `JqGrammar.ParserIsGrammar` | jqlite/parser.py:151-388 | a text parses to a step list if and only if it is a text of that list: a dot alone or the spellings of the steps one after another, no identifier running on, calls with balanced arguments, at every depth, with any spaces around every query |
| `JqLexemes.IndexExact` | jqlite/parser.py:278-287 | an index is an optional sign and digits with single underscores between them, and stands for that number |
| `JqLexemes.KeyExact` | jqlite/parser.py:340-365 | a key literal is a decimal numeral as it is written, or minus zero, or a quoted text in which every character stands for itself, or is a short escape, a hexadecimal code or a surrogate pair, with any spaces around it, and stands for that number or text |
| `Text.StripSplits` | jqlite/parser.py:162 | stripping takes spaces from the front and the end and nothing else, and leaves none there |
| `JqBlanks.BlanksAroundQuery` | jqlite/parser.py:162 | a query means the same, or is rejected for the same, with any spaces around it |
| `JqBlanks.BlanksInBracket` | jqlite/parser.py:278 | the same step, or the same rejection, is read with any spaces between the brackets |
| `JqBlanks.BlanksInCall` | jqlite/parser.py:322-347 | so it is with any spaces around a key or around the query inside a filter |
| `JqErrors.StartErrors` | jqlite/parser.py:162-180 | a blank query and one that begins with neither a dot nor a name are rejected at once, the latter by the operator it begins with if it does |
| `JqErrors.DotErrors` | jqlite/parser.py:186-198 | two dots, a dot before anything but a name, a bracket or the end, and a bracket that is not closed are each rejected for that |
| `JqErrors.NameErrors` | jqlite/parser.py:302-337 | a call without its argument, with one that is not closed, a word operator and an unknown name are each rejected for that |
| `JqErrors.OtherErrors` | jqlite/parser.py:217-238 | what starts no step is rejected by the operator it is, after a gap too, and else by its first character |
| `JqErrors.FirstFailure` | jqlite/parser.py:182-198 | after steps that are read, the first one that is not decides the error of the query, and so does a dot at the end |
| `JqRoundTrip.ParensRead` | jqlite/parser.py:368-388 | the scan stops right after an argument whose own parentheses are neutral, whatever follows it |
| `JqRoundTrip.QueryIsNeutral` | jqlite/parser.py:368-388 | the canonical text of any well-formed step list is neutral for the parenthesis scan, so it can stand inside a call |
| `JqRoundTrip.StopsBefore` | jqlite/parser.py:250-270 | in a well-formed list no step's text runs on into the next one: identifiers do not merge |
| `JqRoundTrip.StepsRead` | jqlite/parser.py:182-198 | reading the printed form of a well-formed list gives the list back, with any text that may follow left over |
| `JqRoundTrip.QueryReads` | jqlite/parser.py:151-198 | parsing the canonical text of every well-formed step list, at every nesting depth, gives that list |
| `JqRoundTrip.ParsedWellFormed` | jqlite/parser.py:151-198 | whatever parses is well formed: no named step directly after a field or a nullary builtin, at any level |
| `JqRoundTrip.ImageExact` | jqlite/parser.py:151-198 | the parser's image is exactly the well-formed step lists |
| `JqRoundTrip.NormalForm` | jqlite/parser.py:151-198 | printing a parsed query and parsing again changes nothing, and the printed text is a fixed point |
| `JqLimits.PlainKeyRead` | jqlite/parser.py:340-388 | `has` with a key in ordinary JSON quotes reads that key back if and only if the key's own parentheses balance |
| `JqLimits.PlainKeyCut` | jqlite/parser.py:340-388 | a key that closes a parenthesis it did not open is cut short by the scan and rejected |
| `JqOperators.ParseStepsMore` | jqlite/parser.py:182-198 | a text that parses is read to its end first, in the same steps, whatever is appended: anything after a bracket or a call, else what neither continues an identifier nor opens a call |
| `JqOperators.OperatorNamed` | jqlite/parser.py:201-247 | an out-of-scope operator after an operand in any spelling that parses, with a gap or without one where the two do not run together, is rejected by its name exactly when the operand has a step; after the bare identity a field name is asked for |
| `JqOperators.LeadingOperatorNamed` | jqlite/parser.py:168-181 | an operator with no operand in front of it is rejected by its name too |
| `JqTable.OperatorExact` | jqlite/parser.py:44-78 | the operator that is named is the one of the table that the text begins with, two characters before one, a word only when no identifier character follows |
| `JqOperators.OperatorInBracket` | jqlite/parser.py:273-288 | whatever stands between brackets and is no integer is rejected as an index: an operator there is not named |
| `JqCalls.HasCallFails` | jqlite/parser.py:291-366 | whatever balanced text `has` is called with and is no key literal is rejected as a key, or as a missing one: an operator there is not named |
| `JqCalls.NullaryCallFails` | jqlite/parser.py:291-311 | any call of a builtin without arguments is rejected for that, whatever stands between its parentheses |
| `JqCalls.NestFails` | jqlite/parser.py:322-337 | the error of a query inside filter calls, at any depth, is the error of the whole query |
| `JqCalls.OperatorInFilters` | jqlite/parser.py:201-247 | so an operator after an operand with a step inside filters, at any depth, is named as at the top |
| `JqCalls.CallAfterOperand` | jqlite/parser.py:182-198 | after an operand that ends in a bracket or a call, a failing call fails the whole query in the same way |
| `JqEval.EvaluateStream` | jqlite/eval.py:45-66 | the two nested loops over steps and values compute the stream of the recursive specification |
| `JqEval.ApplyStep` | jqlite/eval.py:95-177 | each handler gives the results that the specification gives its step; iteration, `select` and `map` repeat something and run as loops, the others are straight-line and shared with the specification |
| `JqLaws.StreamsCompose` | jqlite/eval.py:45-66 | a concatenated query flat-maps its second part over the results of its first, failing exactly when that fails |
| `JqLaws.MapFuses` | jqlite/eval.py:132-141 | `map(f)` followed by `map(g)` means `map` of f followed by g |
| `JqLaws.MapIsIterate` | jqlite/eval.py:113-141 | on arrays `map(f)` is the collected stream of iterating and then applying f, as jq defines it |
| `JqLaws.SelectsMultiply` | jqlite/eval.py:124-129 | two selects emit the input once per pair of truthy results, in either order |
| `JqLaws.SingleResult` | jqlite/eval.py:45-66 | a query without iteration or select gives exactly one result whenever it succeeds |
| `JqLaws.KeysSorted` | jqlite/eval.py:144-151 | `keys` of an object is a sorted permutation of its names |
| `JqBuiltins.HasName` | jqlite/eval.py:195-205 | on an object has agrees with keys, and both with the fields there are |
| `JqBuiltins.HasIndex` | jqlite/eval.py:195-213 | on an array has agrees with keys, which lists each index in its place, and both with the elements there are |
| `JqBuiltins.FieldFinds` | jqlite/eval.py:95-99 | a field access gives the value of the field of that name, and null without one |
| `JqBuiltins.IndexFinds` | jqlite/eval.py:102-110 | an element is found by its index from the front and from the end, and null at any other index |
| `JqBuiltins.LengthCounts` | jqlite/eval.py:180-192 | length counts what keys lists and the characters of a string, gives a number's magnitude and zero for null |
| `JqBuiltins.TypeNames` | jqlite/eval.py:221-235 | type gives each of the six kinds of value its own name |
| `JqBuiltins.SelectDrops` | jqlite/eval.py:124-129 | selecting by the identity keeps every value but null and false |
| `JqBuiltins.FailsExactly` | jqlite/eval.py:95-213 | a step without an inner query fails exactly on the values it is not made for, and the error names the step and the value, or the key |
| `JqBuiltins.MapPlaces` | jqlite/eval.py:113-141 | a query with one result for each element of an array maps it place by place, as an array or as a stream |
| `EventLog.VerifyChain` | runtime/devharness/events/bus.py:110-129 | the recomputing loop returns the row count or the first broken row, as the specification of the chain says |
| `EventLog.VerifyBreakStays` | runtime/devharness/events/bus.py:110-129 | a break is reported for good: appending rows never changes which one is named |
| `EventLog.VerifyAccepts` | runtime/devharness/events/bus.py:110-129 | the check accepts exactly the logs in which every row links to the one before, and counts all rows |
| `EventLog.BreakIsFirst` | runtime/devharness/events/bus.py:116-129 | a rejection names the first row that does not link, for its previous hash when that is wrong and else for its own |
| `EventLog.StaleTailBreaks` | runtime/devharness/events/bus.py:61-79 | two rows linked to the same tail break the chain: reading the tail before taking the write lock would be wrong |
| `EventLog.ContentDecodes` | runtime/devharness/events/bus.py:29-35 | content whose identifying fields hold no unit separator decodes in one way |
| `EventLog.ContentIdentifies` | runtime/devharness/events/bus.py:29-35 | the hashed content identifies its event if and only if none of the four fields holds a unit separator |
| `EventLog.AmbiguousContent` | runtime/devharness/events/bus.py:29-35 | for every event with a separator in some field, another event with the same hashed content, and with the same payload unless only that holds one |
| `EventLog.HeadDeterminesLog` | runtime/devharness/events/bus.py:29-31 | an accepted log with the head hash of an accepted log that holds no separator agrees with it in every row, or a row of one and a row of the other are pointed out whose hashed texts differ and have one digest |
| `EventLog.TwinLog` | runtime/devharness/events/bus.py:29-35 | conversely a separator in any one event id, correlation id or type gives another accepted log with the same payloads and the same hashes throughout, head included |
| `Projections.ProjectionRegistry.RegisterTable` | runtime/devharness/projections/registry.py:23-25 | registering is idempotent and keeps first-registration order |
| `Projections.ProjectionRegistry.RegisterHandler` | runtime/devharness/projections/registry.py:27-34 | the handler is appended for its event type and no other type's handlers change |
| `Projections.RunHandlers` | runtime/devharness/events/bus.py:95-96 | handlers run in registration order over the accumulated tables; the first that raises ends it |
| `Projections.HandlersTrace` | runtime/devharness/events/bus.py:93-94 | each handler gets the event and the tables the one before it left; all go through, or the first to raise gives the outcome |
| `Projections.Rebuild` | runtime/devharness/projections/parity.py:36-43 | clearing the registered tables and replaying the log gives the fold of the handlers over the log, or the error at which it stops |
| `Projections.ReplaySteps` | runtime/devharness/projections/parity.py:36-43 | a replay starts with every registered table empty and no other and goes on event by event |
| `EventBus.EventBus.EmitSync` | runtime/devharness/events/bus.py:52-101 | a missing correlation changes nothing; otherwise one row with the request's own id, correlation, type and payload, the next number and the link to the tail is committed with what the handlers of its type make of the tables and with the caller's open writes, and its id and hash are returned; or a handler raises, everything is rolled back and no transaction stays open |
| `EventBus.EventBus.CheckParity` | runtime/devharness/projections/parity.py:46-58 | accepts exactly when every registered table equals its replay, which it leaves in place; on a store kept by the bus it always accepts and changes nothing |
| `EventBus.AppendKeeps` | runtime/devharness/events/bus.py:52-101 | an atomic emit keeps chain, numbering, correlation ids and parity, and only extends the log |
| `Writers.StepIsAtomic` | runtime/devharness/events/bus.py:74-101 | any statement of any writer, a crash included, keeps the invariant, and only a commit changes the committed store, exactly as one atomic emit would |
| `Writers.RunsAreSerial` | runtime/devharness/events/bus.py:61-101 | every interleaving of any number of writers ends in the store that its commits give when run one after another |
| `Writers.EveryRunIsSafe` | runtime/devharness/events/bus.py:52-129 | in every run the integrity check accepts the committed log, live projections equal a replay, rows are only appended, one per commit, and at most one writer is inside a transaction |
| `Writers.RowsHoldRequests` | runtime/devharness/events/bus.py:79-85 | in every run the rows appended to the committed log hold, one by one, the fields of the committed requests in the order of their commits |
| `Writers.CommitsWereAsked` | runtime/devharness/events/bus.py:52-101 | every committed request was asked for by an emit of the run, of the writer that commits it |
| `Writers.LockIsFreed` | runtime/devharness/events/bus.py:75-100 | in every run the write lock is held only by a writer inside a transaction, however transactions end |
| `Writers.AloneIsAtomic` | runtime/devharness/events/bus.py:52-101 | a writer nobody disturbs does the atomic emit, or leaves everything as it was, and lets the lock go |
| `SingleWriter.CheckSingleWriter` | runtime/devharness/monitor/checks.py:38-56 | on every log: one report for each acquire whose predecessor's token had not been released since, naming both rows, in order |
| `SingleWriter.LockStore.AcquireLock` | runtime/devharness/lock/base.py:43-62 | refused exactly while a lock row exists, otherwise the log and the lock row grow by the token |
| `SingleWriter.LockStore.ReleaseLock` | runtime/devharness/lock/base.py:64-79 | refused exactly for a token without a row, otherwise the row is deleted by an appended event |
| `SingleWriter.LockRowsExact` | runtime/devharness/projections/handlers.py:710-721 | the lock rows of any log are exactly the tokens that were taken and have not been released since |
| `SingleWriter.SerializedUseIsClean` | runtime/devharness/lock/base.py:43-79 | after any sequence of acquires, releases and other emits there is at most one lock row and the check reports nothing |
| `SingleWriter.RowsFollow` | runtime/devharness/projections/handlers.py:710-721 | the lock rows that the two handlers keep follow the token the check tracks |
| `Monitor.CheckTerminalPerTask` | runtime/devharness/monitor/checks.py:122-161 | grouping by task in order of first appearance and walking each group gives the specified flags |
| `Monitor.TerminalPerTaskExact` | runtime/devharness/monitor/checks.py:122-161 | flags, each once, exactly the terminals that follow a terminal of their task with no start between, and, if orphans are included, the starts that nothing of their task follows |
| `Monitor.FlagsComeInOrder` | runtime/devharness/monitor/checks.py:131-160 | the flags go task by task in the order in which the tasks appear in the log, and by row within a task |
| `Monitor.CheckDoneEarned` | runtime/devharness/monitor/checks.py:59-93 | reports exactly the completed terminals, in order, whose attempt window lacks a pass or a certification, those without a task id among them |
| `Monitor.AutomatonAgrees` | runtime/devharness/monitor/checks.py:59-93 | the window queries give the verdicts of a one-pass automaton with two bits per task, reset at each start |
| `Monitor.ObservedIsWindow` | runtime/devharness/monitor/checks.py:75-87 | the automaton's bits are the existence of a pass and of a certification since the latest start |
| `Monitor.VerdictsAreFinal` | runtime/devharness/monitor/checks.py:59-161 | extending a log never changes the verdict on an earlier terminal; earlier reports remain a prefix |
| `Sweep.RunChecks` | runtime/devharness/monitor/checks.py:94-210 | the violations are one for each thing wrong with a row under the seven invariants, each told by the rows of the log alone, with its task, correlation and ids, in ascending order of the invariants, and no other; orphans only when asked for and no taken lock is unreleased |
| `Findings.AllFound` | runtime/devharness/monitor/checks.py:31-210 | all checks together find exactly the second locks, unearned completions, the first broken link, rows without a correlation, double terminals, orphans, weakened gates and trusted unverified entries that there are |
| `Sweep.UntrustedExact` | runtime/devharness/monitor/checks.py:175-196 | the trusted-memory check reports exactly the rows that create a foreign entry with an id that no row of the log verifies and that the table marks as trusted |
| `TrustAudit.AuditReports` | runtime/devharness/monitor/checks.py:175-196 | with trust read from the table that the same log builds, and each id created from one source, the check reports exactly the project's own unverified entries, and nothing if the project is called `local` or has no name; never a foreign entry |
| `TrustAudit.TableIsRun` | runtime/devharness/projections/handlers.py:390-413 | the memory table of a log is the one that the memory store's operations make |
| `TrustAudit.AuditExact` | runtime/devharness/projections/handlers.py:390-413 | without that assumption on ids, a row is reported exactly when its source is not `local` and this project created its id first |
| `Sweep.ReportsChangeNothing` | runtime/devharness/monitor/checks.py:38-196 | appending a linked report leaves the list of violations unchanged, on any log, broken or not, by every check |
| `Sweep.MonitoredStore.RunInvariantSweep` | runtime/devharness/monitor/sweep.py:30-62 | the log grows by one linked report for the first violation of each key that it does not have yet, in order, those are returned, and afterwards it has the key of everything wrong |
| `Sweep.SweptExtends` | runtime/devharness/monitor/sweep.py:39-62 | a sweep only appends, one row per returned violation, and afterwards every violation it saw has its key in the log |
| `Sweep.SweepKeepsViolations` | runtime/devharness/monitor/sweep.py:30-62 | the violations after a sweep are those before it |
| `Sweep.SecondSweepIsSilent` | runtime/devharness/monitor/sweep.py:30-62 | a second sweep right after the first emits nothing and leaves the log unchanged, whatever the log |
| `Sweep.RunsReportOnce` | runtime/devharness/monitor/sweep.py:23-48 | over any run of emits and whole sweeps, with checks that may change between them, no key is reported twice |
| `Sweepers.TurnsReportOnce` | runtime/devharness/monitor/sweep.py:30-62 | statement by statement, sweeps of which at most one is under way at a time report no key twice, whatever other rows come between their statements |
| `Sweepers.AloneIsSwept` | runtime/devharness/monitor/sweep.py:30-62 | the statements of a sweep that nothing disturbs append what the sweep as one step appends |
| `Sweepers.OverlapReportsTwice` | runtime/devharness/monitor/sweep.py:39-62 | two sweeps that both look before either reports report the first new key twice |
| `Sweep.KeyTellsApart` | runtime/devharness/monitor/sweep.py:16-20 | for ids without separators two violations share a key exactly when they agree on invariant, task, offending ids up to order, and, without ids, on the detail or on its first 120 characters |
| `Dispatch.Dispatcher.Dispatch` | runtime/devharness/console/developer.py:388-469 | the attempt loop stops within retries + 1 attempts and leaves log, lifecycle and result as specified; without a terminal an abort is forced, which a finished lifecycle refuses |
| `Dispatch.Dispatcher.DirectorDispatch` | runtime/devharness/roles/director.py:348-511 | one attempt: denial before the start, a refused diff, a raise, the acceptance of a build, or outside work cut off by a cap at any point, each with its rows |
| `Dispatch.Dispatcher.CompleteTask` | runtime/devharness/console/developer.py:513-597 | verification and review from a queued lifecycle, with the retryable rewind that leaves no terminal unless the attempt is the last |
| `Dispatch.Dispatcher.ReviewTask` | runtime/devharness/task_lifecycle/done_is_earned.py:55-76 | completion only with a pass and a certification in the running attempt; the commit may still raise afterwards |
| `DispatchLaws.WorkLeaves` | runtime/devharness/console/developer.py:513-597 | work leaves a terminal, which ends the lifecycle and is no unearned completion, exactly when it is declined, certified or finally failing, and raises after it only when the branch commit fails |
| `DispatchLaws.AttemptLeaves` | runtime/devharness/console/developer.py:397-426 | an attempt leaves at most one terminal, as its last row and never an unearned completion, unless it is late: the commit fails after the terminal, or a cap adds a second one |
| `DispatchRows.DispatchFollows` | runtime/devharness/console/developer.py:383-457 | what a dispatch appends, row by row, the life it leaves its task in and what it returns depend on what its attempts meet and on nothing else in the log, and are those of a table |
| `DispatchRows.AttemptLeavesEntry` | runtime/devharness/roles/director.py:348-514 | an attempt adds the rows of the table, each with the stamp and link of an emit, and leaves the life and the error of the table |
| `DispatchLaws.CertifiedIsEarned` | runtime/devharness/task_lifecycle/done_is_earned.py:55-71 | a pass and a certification after the attempt's start always satisfy the gate, so the refusal branch is never taken there |
| `DispatchLaws.ExactlyOneTerminal` | runtime/devharness/console/developer.py:388-469 | for every pattern of attempt results a dispatch returns with exactly one terminal of its task, the one it returns, if and only if no attempt it gets to is late |
| `DispatchLaws.LateCommitExample` | runtime/devharness/console/developer.py:403-411 | a commit that fails with the transient error's words in its text, then a denial: the dispatch returns and has left two terminals |
| `DispatchLaws.HardCommitExample` | runtime/devharness/console/developer.py:409-448 | a commit that fails for good: one terminal stands and the forced abort raises instead of returning |
| `DispatchLaws.LateCapExample` | runtime/devharness/roles/director.py:477-494 | a cap found exceeded after the work has ended: whatever the work's terminal, completed included, the dispatch adds an aborted one and returns that |
| `DispatchLaws.NewFlags` | runtime/devharness/console/developer.py:388-457 | such a dispatch adds no unearned completion and no orphan, and its terminal is a double one exactly when it never reached the start and the task's marks already ended in a terminal |
| `LateFlags.LateNewFlags` | runtime/devharness/monitor/checks.py:59-161 | a late dispatch adds no unearned completion; after its first terminal comes at most one more, which is a double terminal exactly when nothing was started between them, and without one the task is an orphan exactly when something was started |
| `DispatchLaws.DispatchSettles` | runtime/devharness/console/developer.py:388-469 | every dispatch, late or not, gives exactly its own task a terminal |
| `DispatchLaws.PlanIsDriven` | runtime/devharness/console/developer.py:388-469 | dispatching again and again without a task id, with any attempt results and any other rows between, goes through the tasks without a terminal once each in plan order and is refused exactly when none is left |
| `PlanProgress.SelectTask` | runtime/devharness/console/developer.py:653-677 | the first task of that name or an error; without a name the task with no terminal that has none before it, or the report that all are settled |
| `PlanProgress.DrivesInPlanOrder` | runtime/devharness/console/developer.py:653-677 | selections that each settle what they picked go through the pending ids once each in plan order, at their first positions, and fail exactly when none is left; on any plan |
| `PlanProgress.FirstsArePending` | runtime/devharness/console/developer.py:671-677 | without repeated ids those first positions are all the pending tasks |
| `PlanProgress.CompletedTaskIds` | runtime/devharness/console/assemble.py:141-150 | the ids with a completion that no later terminal of the task follows, however often a task was re-driven |
| `PlanProgress.MergeOrder` | runtime/devharness/console/assemble.py:60-71 | a merge order exists exactly for a non-empty acyclic plan without repeated ids whose tasks are all completed, and is the least topological order; otherwise the first obstacle is reported, with the number of tasks that are missing |
| `TopoOrder.TopoOrder` | runtime/devharness/console/assemble.py:152-178 | on every plan the loop over counters, children and the sorted ready list returns the tasks of the specified order, or the cycle error, which a repeated id always gets |
| `TopoOrder.EntriesFewer` | runtime/devharness/console/assemble.py:155-158 | the tables have one entry for each id, so fewer than tasks when an id repeats |
| `TopoOrder.Kahn` | runtime/devharness/console/assemble.py:166-175 | the loop takes the least ready entry again and again, as far as that goes |
| `TopoOrder.BuildTables` | runtime/devharness/console/assemble.py:156-164 | counters and child lists count every occurrence of a dependency, repeated ones included, and ignore unknown ids |
| `TopoOrder.Release` | runtime/devharness/console/assemble.py:170-174 | after a task every counter equals the dependencies still open, and the freed tasks are exactly those whose counter reached zero |
| `TopoOrder.ReadyAfter` | runtime/devharness/console/assemble.py:166-175 | the re-sorted ready list is exactly the ascending list of tasks that are ready |
| `TopoSpec.OrderDecides` | runtime/devharness/console/assemble.py:152-178 | the error is returned if and only if the in-plan dependencies have a cycle, equivalently no topological order exists; otherwise the result is the lexicographically least topological order |
| `TopoSpec.PlanOrderKept` | runtime/devharness/console/assemble.py:152-178 | a plan already in dependency order keeps its own order |
| `Descendants.TransitiveDescendants` | runtime/devharness/console/developer.py:130-142 | the growing scan terminates on every plan, cyclic ones included, with exactly the task and the plan tasks that have a dependency path to it |
| `Descendants.ScanOnce` | runtime/devharness/console/developer.py:136-141 | one scan of a set that it mutates adds only reached tasks, and adds none exactly when the set is closed |
| `BranchChain.LatestCompletedBranch` | runtime/devharness/console/developer.py:145-162 | the newest completed task that is neither the task nor a descendant of it |
| `BranchChain.FreshTakesLatest` | runtime/devharness/console/developer.py:599-612 | when neither the task nor a descendant has completed, the base is the immediately preceding completion |
| `BranchChain.FreshRunsAccumulate` | runtime/devharness/console/developer.py:588-612 | in every run of such dispatches, denied, rejected and completed ones, the branch of the latest completion contains the work of every completed task if and only if no completion's own commit failed |
| `BranchChain.OnwardRunsAccumulate` | runtime/devharness/console/developer.py:588-612 | from any state without unrecorded work, runs of fresh dispatches and of others that complete nothing and leave the latest completion's branch alone end with all completed work there if and only if it was there before and no commit failed |
| `BranchChain.CompletionChains` | runtime/devharness/console/developer.py:145-162 | a completion keeps that property if and only if nothing but earlier work of the same task completed after its base |
| `BranchChain.RejectionKeeps` | runtime/devharness/console/developer.py:599-612 | a rejected dispatch keeps it if and only if it did not re-drive the latest completion |
| `BranchChain.DenialRemovesBase` | runtime/devharness/console/developer.py:711-722 | a denied re-drive takes away the base of exactly the tasks that would be built on it, and nothing completes on a missing base |
| `BranchChain.RejectionKeepsBase` | runtime/devharness/console/developer.py:599-612 | a rejected re-drive leaves the task's branch as a base, with the work of its own base |
| `BranchChain.RedriveLosesWork` | runtime/devharness/console/developer.py:145-162 | re-driving a task right after something that depends on it completed loses that later work |
| `BranchChain.RedriveExample` | runtime/devharness/console/developer.py:145-162 | a two-task plan, built in order, in which this happens |
| `PlanBuild.LoopCompletions` | runtime/devharness/console/developer.py:388-469 | a dispatch puts at most one completion on record, its task's, and exactly when an attempt it gets to is certified |
| `PlanBuild.StepFollows` | runtime/devharness/console/developer.py:383-393 | what a turn's attempts do to the task's branch is one of the five ways a dispatch can end, with the same completion on record, also when the branch to start from is missing |
| `PlanBuild.PlanAccumulates` | runtime/devharness/console/developer.py:599-612 | driving a plan listed in dependency order without task ids, whatever becomes of each dispatch, ends with the work of every completed task on the latest branch if and only if it was there at the start and no completion's own commit failed |
| `PlanBuild.FirstTryEffect` | runtime/devharness/console/developer.py:588-593 | a certified first attempt leaves its work on the branch if its commit goes through, and a completion without its work if the commit fails for good |
| `PlanBuild.OutOfOrderExample` | runtime/devharness/console/developer.py:145-162 | a plan of two tasks listed out of order, where driving it loses the first one's work |
| `Relay.PollOnce` | sidecar/src/lib.rs:89-110 | the rows above the high water are broadcast in order and the last one becomes the new high water; an unreadable row leaves the high water behind what was sent |
| `Relay.Backlog` | sidecar/src/lib.rs:116-136 | the channel's history and the last sequence number, or an error at an unreadable row |
| `Relay.StepStands` | sidecar/src/lib.rs:89-266 | every step of the interleaving keeps poller, queue and client at positions of the log, unless a poll fails after a row it sent |
| `Relay.DeliveredInOrder` | sidecar/src/lib.rs:170-266 | in every run without such a torn poll, with any lag and with a failed backlog read, a client receives a strictly increasing selection of the log's rows of its channel's type, or of any type for the channel of all |
| `Relay.DeliveredWithoutGaps` | sidecar/src/lib.rs:170-266 | without lag while streaming the client holds exactly its channel's rows from some row to some row; from the first row unless the backlog read failed, and to the last, each event once, when poller and queue are drained |
| `Relay.TornPollRepeats` | sidecar/src/lib.rs:104-109 | a poll that fails is repeated from its start: what two polls broadcast is in order if and only if the first failed before its first row |
| `TornPolls.TornPollReaches` | sidecar/src/lib.rs:89-266 | an idle streaming client, one poll that fails after some rows and a full one after it: the client gets what its stream lets through of those rows twice, and its order survives if and only if that is nothing |
| `TornPolls.StuckPollsRepeat` | sidecar/src/lib.rs:89-266 | while a row stays unreadable each poll sends the rows in front of it again and none after it, whatever is appended: a client that takes them gets them once for each poll, in order exactly while that is once or nothing of them passes |
| `TornPolls.TornPollExample` | sidecar/src/lib.rs:104-109 | two rows and a poll that fails between them: the client receives the first row twice |
| `TornPolls.LagExample` | sidecar/src/lib.rs:172-186 | a run with lag in which a streaming client misses a row that the poller sent |
| `TornPolls.LostBacklogExample` | sidecar/src/lib.rs:188-206 | a run with a failed backlog read in which a client misses the rows sent before it joined |
| `SseText.ParseSseFrames` | runtime/devharness/console/sse.py:91-121 | the loop over lines yields the frames of the specified line automaton |
| `SseBlocks.ParsedByBlocks` | runtime/devharness/console/sse.py:91-121 | the frames of any lines are those of their blocks, which end at blank lines: the last event line and the joined data lines of each; an open block at the end gives none |
| `SseBlocks.FieldExact` | runtime/devharness/console/sse.py:114-116 | every line has one field and one value: the field before the first colon, the value after it but for one space, or the whole line a field without a value |
| `SseBlocks.ChompSplits` | runtime/devharness/console/sse.py:104 | a line loses its newlines, then the carriage returns before them, and nothing else |
| `SseText.WrittenBlocksRead` | runtime/devharness/console/sse.py:91-121 | any list of written blocks, with comment lines anywhere and an unfinished block at the end, parses to the frames of those blocks and nothing else |
| `SseText.SplitJoins` | runtime/devharness/console/sse.py:105-119 | cutting a body at its newlines and joining its lines gives the body back |
| `SseText.BodySurvives` | runtime/devharness/console/sse.py:103-116 | the lines of a body survive the reading if and only if none ends in a carriage return |
| `SseText.FramesRoundTrip` | runtime/devharness/console/sse.py:91-121 | parsing what any list of frames is written as, multi-line bodies split, comments anywhere and an unfinished block at the end, yields exactly those frames in order |
| `SseText.CommentsVanish` | runtime/devharness/console/sse.py:112-113 | removing every comment line, inside blocks too, changes nothing |
| `SseText.PrefixesParse` | runtime/devharness/console/sse.py:91-121 | a prefix of the lines yields a prefix of the frames, and a trailing block without its blank line yields none |
| `SseText.LineReads` | runtime/devharness/console/sse.py:103-116 | a field line reads back as its field and its value without trailing line ends; the value survives if and only if it ends in none |
| `SseText.BlockSurvives` | runtime/devharness/console/sse.py:103-120 | a written block is read back as written if and only if none of its lines ends in a newline or carriage return of its own |
| `Intake.IntakeStore.CheckCooldown` | runtime/devharness/oss/cooldowns.py:48-58 | active exactly when some row of the requester ends after now, and then the latest such end |
| `Intake.IntakeStore.CheckIntakeRate` | runtime/devharness/oss/cooldowns.py:77-103 | counts the requester's intakes no older than the window and, at the limit, adds one cooldown row and its audit event and else nothing |
| `Intake.IntakeStore.ProcessIntake` | runtime/devharness/oss/intake.py:72-132 | accepted if and only if no cooldown of the requester lasts beyond a connected call, the license is allowed, known and the declared one, the maintainer verified and no pattern found; a refusal logs the first check that fails and no intake, an acceptance logs both events and trips a cooldown exactly when it fills the window |
| `Intake.TimesAfter` | runtime/devharness/oss/intake.py:85-132 | an intake is recorded for a requester exactly when that requester's call is refused by nothing |
| `Intake.RunsStayLimited` | runtime/devharness/oss/cooldowns.py:48-103 | in every run with a nondecreasing clock an intake that fills its window is followed by none before its cooldown ends |
| `Intake.IntakesAreBounded` | runtime/devharness/oss/cooldowns.py:48-103 | n intakes of one requester that span at most the window number at most the limit, or their excess times the cooldown fits into the window, over every run and with extra cooldown rows from elsewhere |
| `Intake.BoundIsAttained` | runtime/devharness/oss/cooldowns.py:48-103 | for every limit, window and cooldown, and every number of cooldowns that fit into the window, a run that gets in that many more than the limit |
| `Intake.NoRunHasMore` | runtime/devharness/oss/cooldowns.py:48-103 | and in no run do more get in: with one cooldown more than fit, the intakes outlast the window |
| `Trust.TrustStore.EvaluateTrust` | runtime/devharness/calibration/evaluation.py:18-42 | the action by score and trust before the call; on a settled table a good score leaves the key trusted exactly until the expiry from now, a bad one untrusted from then on, too few samples and other keys as they were |
| `Trust.TrustStore.PruneExpired` | runtime/devharness/maintenance/prune.py:34-54 | refused without an authorization and a reason that are not all spaces; otherwise deleting the listed ids one by one leaves exactly the rows that are revoked or not expired, and the count is of those that went |
| `Trust.ActiveIsLatest` | runtime/devharness/projections/handlers.py:510-538 | a trusted key's latest grant is the row that renewal and revocation act on |
| `Trust.EvaluatedIs` | runtime/devharness/calibration/evaluation.py:18-42 | an evaluation keeps the run invariant, that every grant but a key's latest is revoked or expired, and moves the trust of its key only |
| `Trust.EvaluationConcludes` | runtime/devharness/calibration/evaluation.py:18-42 | what an evaluation concludes about the trust of every key at every later time, by its score alone |
| `Trust.TrustedExact` | runtime/devharness/calibration/promotion.py:85-95 | a key is trusted exactly when its latest grant, by time and then by id, is neither revoked nor over |
| `Trust.PruneKeepsTrust` | runtime/devharness/maintenance/prune.py:22-54 | on a table with that invariant pruning changes the trust of no key, now or later |
| `Trust.PruningChangesNothing` | runtime/devharness/maintenance/prune.py:34-54 | every run takes the same actions with and without its prunes and afterwards trusts the same keys, now and later, although row ids are reused |
| `Trust.PruneKeepsTrustIff` | runtime/devharness/maintenance/prune.py:22-31 | on an arbitrary table pruning keeps the trust of a key, now and later, if and only if no live grant of the key lies under later grants of it all of which are prunable |
| `Trust.PruneRevives` | runtime/devharness/maintenance/prune.py:22-31 | two rows for which pruning brings trust back |
| `Memory.MemoryStore.ImportMemory` | runtime/devharness/memory/export_import.py:34-54 | known ids and entries older than their source's latest are skipped, the others are appended, and the count is the growth of the table |
| `Memory.MemoryStore.ExportMemory` | runtime/devharness/memory/export_import.py:16-31 | the entries in row order, without verification state |
| `Memory.ImportIsIdempotent` | runtime/devharness/memory/export_import.py:34-54 | an artifact imported once imports nothing again, whatever was created, imported or verified in between |
| `Memory.ImportKeepsOrder` | runtime/devharness/memory/export_import.py:43-48 | import keeps the creation times of each source in row order |
| `Memory.ImportTakes` | runtime/devharness/memory/export_import.py:39-54 | an import takes its entries one by one: one whose id, or a later entry of whose source, the table has changes nothing, any other adds a row with its own fields, a stand-in for a missing correlation id, and trust by its source |
| `Memory.IdsStayDistinct` | runtime/devharness/projections/handlers.py:390-401 | in every run each id has one row, whatever is created, imported or verified |
| `Memory.ExportImportReproduces` | runtime/devharness/memory/export_import.py:16-54 | exporting and importing into an empty table reproduces every entry in order if and only if no source's creation times go back |
| `Memory.TrustIsEarned` | runtime/devharness/projections/handlers.py:390-413 | in every run a row from another project is trusted only if its id has been verified here |
| `Memory.ArrivalTrust` | runtime/devharness/memory/export_import.py:34-54 | every row that an import adds is trusted at once exactly when its entry names this project as its source |
| `Memory.ArrivesTrusted` | runtime/devharness/memory/export_import.py:34-35 | one such entry, imported into an empty table, is trusted without any verification |

## Left out

- SQLite, git, HTTP, agent sessions and MCP clients: tables are sequences and maps, transactions are states, and foreign results are parameters.
- JqParser: error positions and message texts, Python's recursion limit and its 4300-digit limit on integers, Unicode digits in bracketed indices, and lone surrogates in JSON escapes are not modelled.
- JqEval: numbers are exact reals, so floating-point rounding of `length` on floats is not modelled.
- JqLaws.StreamsCompose: says that both sides fail together, not which of several errors is raised, because evaluation order differs.
- TopoOrder.TopoOrder: the tables are sequences over the positions of their entries where the code has dictionaries keyed by id.
- EventBus.EventBus.EmitSync: a failing serialization or a busy write lock, both before the transaction, are not modelled.
- Projections.Rebuild: handlers are functions of the registered tables and the event; one that reads other tables or the log is not covered.
- Sweep.RunChecks: which memory entries a `trust` column would mark as trusted is an arbitrary predicate, and which gate changes weaken a core gate another; the wording of details other than the chain's is not kept.
- Sweep.MonitoredStore.RunInvariantSweep: the report's handlers are taken not to raise, and of its payload only the dedup key is kept.
- SingleWriter.LockStore.AcquireLock: check and emit are one step; two processes racing between them are not modelled.
- Dispatch.Dispatcher.DirectorDispatch: how far outside work got when a cap is found exceeded is part of the attempt, not computed from clock and cost; outside work takes the acceptance steps of inside work, though its verifier runs before its commit; lock rows, worktree cleanup, cost events and plan integration are left out.
- DispatchLaws.DispatchSettles: emits are taken not to raise; `transition` (task_lifecycle/base.py) ends the lifecycle before it emits, so an emit that raises there leaves a task without a terminal and a lifecycle that no forced abort can end.
- DispatchLaws.ExactlyOneTerminal: the same holds of the emits of its terminals.
- PlanBuild.PlanAccumulates: that git makes no worktree on a missing branch is a requirement on the attempts, and outside work, which goes to branches of another name, leaves no branch of the task's own.
- BranchChain.FreshRunsAccumulate: a branch is the set of completions whose work it contains; merge conflicts are not modelled.
- Relay.DeliveredWithoutGaps: the broadcast buffer is unbounded and lag is a step of its own; the HTTP layer, keep-alives and the degraded-state flags are left out.
- SseText.ParseSseFrames: byte decoding is left out; blank keep-alive lines are blocks without data.
- Intake.IntakeStore.ProcessIntake: the license set, the maintainer lookup and the injection scan are results of the request; a fetch that raises and the texts of the decision are left out.
- Trust.TrustStore.EvaluateTrust: the Brier score is reduced to too few samples, good, or bad; threshold and score arithmetic are left out.
- Memory.MemoryStore.ImportMemory: artifacts with missing fields are left out.
- `csvlite`, `specledger`, `explore`, the gates, the terminal and web consoles and the dashboard would only add easy members or library behaviour.
