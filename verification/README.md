# Caroline, verified

Caroline is a log pipeline. An agent collects Docker log lines, batches them and
spools what it cannot deliver. A Hub stores batches idempotently, searches them
with a small query language, pages and charts the results, passes entries on to
live subscribers and evaluates alert rules. This project models those parts in
Dafny and proves what they are for:

- **The query language.** A hand-written scanner (quotes, escapes, parentheses,
  line breaks) reads what a separate printer in the web client writes.
  `QueryPrinter.PrintedMeaning`: for every tree of groups, AND, OR, comparisons,
  words, phrases, searches and embedded user text, the printed text matches an
  entry exactly when the tree is true of it; a search for any list of words asks
  for all of them (`QueryWords.WordsMean`). `QueryClient.FilterAction` and
  `QueryClient.ExplorerQueryMeaning` are the two texts the client builds. They
  mean what they should for all user text that its parentheses hide, balanced or
  not, and `QueryClient.FilterParses` says that no other text is read that way.
  A query typed over several lines means the conjunction of the lines that keep
  their parts when they are trimmed (`QueryLines.LinesMeanConjunction`), which is
  a matter of the one character next to an operator (`QueryTrims.TrimKeepsParts`).
- **Delivery.** A protocol of small steps joins the agent's queue and spool, a
  network that loses requests and answers, the Hub's checks and its tables. The
  process may end, and the Hub may clean up or serve others, between any two of
  them. No flushed batch disappears without a record, one that is recorded as
  pruned was too old or did not fit (`DeliveryRuns.PrunedWereDue`), the batches of
  a boot arrive in order, an accepted batch is in the tables entry by entry, and
  while a batch that comes again has its receipt the tables equal those of the run
  in which every batch arrived once. What the agent's methods do without
  interruption are runs of that protocol (`DeliveryRefines.CollectSteps`).
- **The store.** Cleanup by one sum, one scan and one range delete is the simple
  "delete the oldest while over budget", and `StoreLaws.CleanedRow` says of each row
  whether it is kept; the chunked keyset search is the one-pass search, and
  following a client's tokens over a table yields every match once
  (`SearchPages.TokensYieldEveryMatch`); a log that is kept keeps its receipt; the
  last heartbeat decides which containers are active.
- **Alerts.** The trimmed match list counts the arrivals in the window, FIRING is
  entered and left exactly at the counts' crossings, notifications alternate and
  report their incident, and a disabled rule never fires. Over any run of the whole
  engine, with edits, failed writes, restarts and lost notifications, the
  notifications of a rule balance exactly: firings, lost ones included, are
  resolutions, the one still owed, and the incidents that ended without one. So a
  rule has sent more resolutions than firings if and only if its lost firings
  outnumber the incident it owes and those it dropped
  (`AlertEngine.EngineOverdrawnExactly`), and `AlertLife.LostFiringOverdraws` is
  such a run.
- **Pages, histogram, event bus and Docker frames.** Page walks are complete and
  undisturbed by insertions, buckets tile the range and conserve the entries, the
  deduplication window is the last 4096 accepted ids, and frame decoding is a
  round trip whose raw path does not depend on how the reader cuts its input.

Code that changes things step by step is a method or a class (`SqliteStore`,
`BatchQueue`, `Spool`, `Agent`, `EventBus`, `Engine`) proved against a function on
values; the run theorems are about those functions and their small steps. The
modules named Laws say what those functions mean for a single row, item, container
or rule. Times are integer nanoseconds, strings are sequences of Unicode scalar
values with an ASCII case fold, and a table is a map keyed by its primary key.

Where code and documentation disagree the code is followed: README.md:329-331
says that parentheses are not supported, internal/explorer/query.go:294-296
supports them.

Findings about the code as it is:

- The rule bounds of internal/alert/rule.go:139-144 compare products that can
  wrap around. `Alerts.BoundsAreReal` says exactly when they mean what they say;
  `AlertWraps.WrappedWindowIsAccepted` is a rule that passes with a negative
  window, `AlertWraps.WrappedCooldownIsAccepted` one that passes with a negative
  cooldown and fires twice within three seconds. The stored matches are the window
  exactly for windows that are not negative (`AlertWraps.WindowIsExactly`); with a
  negative one an accepted rule fires only if its threshold is one, and then with
  nothing in its window (`AlertWraps.FiringIsExactly`).
- Splitting on AND and OR takes a space, a tab or a newline as a boundary, trimming
  takes every Unicode space. `QueryLines.UntrimmedLineDiffers` is a line that means
  one thing alone and another behind a second line; `QueryLines.LineInContext` says
  for which lines that cannot be.
- The filter action does not narrow every old query
  (`QueryClient.UnbalancedQueryEscapes`), nor carry every field name: a key of two
  words is read as a text search (`QueryFields.SpacedFieldFails`).
- The alert engine writes its file before it notifies, so a process that ends in
  between loses the firing and later reports its resolution;
  `AlertLife.NeverMoreResolved` says in exactly which runs a prefix holds more
  resolutions than firings.
- Input cut inside the first frame header is delivered as text
  (`Frames.CutHeaderBecomesText`); exactly the cuts at nothing or after at least
  eight bytes are harmless (`Frames.StreamingCuts`).

`dafny verify dfyconfig.toml` checks everything.

## Model

| member | source | states |
|---|---|---|
| QueryScan.QueryQuoteEscaped | internal/explorer/query.go:13-19 | a byte is escaped exactly when the scanner's running parity says so, for every position |
| QueryScan.EscapedIsOddRun | internal/explorer/query.go:13-19 | that parity is the oddness of the run of backslashes in front of the position |
| QueryScan.SplitQueryOperator | internal/explorer/query.go:21-60 | the flag-and-counter loop, jump included, yields the split defined on the scan of the prefix at each position |
| QueryScan.ScanByte | internal/explorer/query.go:28-45 | one byte's flags and depth are the scanner's next state |
| QueryScan.StandsAlone | internal/explorer/query.go:46-52 | the operator test of the loop is the operator standing alone outside quotes and parentheses |
| QueryScan.OperatorIsInert | internal/explorer/query.go:52-56 | jumping over a found operator skips no quote and no parenthesis |
| QueryLaws.SplitJoined | internal/explorer/query.go:21-60 | splitting `a OP b` gives the parts of a and then the parts of b when a's scan ends closed: nothing merges, nothing is lost |
| QueryOperators.SplitBetween | internal/explorer/query.go:46-58 | splitting at an operator in any case, with a space, a tab or a line feed on either side, splits the two texts: nothing merges, nothing is lost |
| QueryLaws.NoOperatorJoined | internal/explorer/query.go:21-60 | joining two texts with the other operator creates no new split point |
| QueryLaws.SplitSingle | internal/explorer/query.go:21-60 | text without a free-standing operator is one trimmed part |
| QueryLaws.SplitLeading | internal/explorer/query.go:53-58 | a blank at the start of a part changes no split |
| QueryNormal.NormalizeQuery | internal/explorer/query.go:331-354 | the builder loop writes " AND " for every line break outside quotes, one for a pair of return and newline, and keeps every other character |
| QueryNormal.ScanRewrite | internal/explorer/query.go:331-354 | normalising leaves the scanner's quote state and depth as they were |
| QueryNormal.RewriteKeepsState | internal/explorer/query.go:331-354 | every kept character is read in the quote state it had in the original |
| QueryNormal.NormalizeIdempotent | internal/explorer/query.go:331-354 | normalising twice is normalising once |
| QueryNormal.RewriteTwice | internal/explorer/query.go:331-354 | no line break outside quotes survives, so a second pass changes nothing |
| QueryNormal.RewriteConcat | internal/explorer/query.go:331-354 | normalising distributes over concatenation when the first text leaves the scanner outside quotes |
| QueryNormal.BreaksAreAnd | internal/explorer/query.go:331-354 | behind text that leaves the scanner outside quotes, a line feed, a return and the pair of both are one AND each |
| QueryMatch.OpensNormalize | internal/explorer/query.go:331-357 | normalising adds no opening parenthesis, though every line break grows the text |
| QueryMatch.OpensSplit | internal/explorer/query.go:361-364 | no part has more opening parentheses than the whole |
| QueryMatch.OpensInner | internal/explorer/query.go:294-296 | the recursion into a group has fewer opening parentheses, so matching terminates |
| QueryWords.WordsMean | internal/explorer/query.go:270-290 | for every list of words, with any white space around them, a text search matches if and only if every word of the list occurs in the text, in any case of its letters |
| QueryWords.ContainsMeans | internal/explorer/query.go:271-285 | the lower-cased substring test holds exactly when the part is found at some position, letter by letter in either case |
| QueryWords.StrayMarksMean | internal/explorer/query.go:284-288 | quote marks at the ends of such a search that do not pair up count for nothing |
| QueryWords.PhraseMeans | internal/explorer/query.go:270-290 | words mean that all occur; a text in double quotes, escapes decoded, or in backticks means that it occurs as a whole |
| Literals.UnquoteJson | internal/explorer/query.go:314-319 | the Hub's unquoting gives back every string that the client's JSON quoting writes |
| Literals.JsonBodyPrintable | web/src/features/explorer/query.ts:3-5 | quoted text has no control character, so no line break for the normaliser to rewrite |
| Escapes.NamedEscape | internal/explorer/query.go:314-319 | each of the nine escapes with a letter or sign writes its character, whatever follows |
| Escapes.ShortCode | internal/explorer/query.go:314-319 | an escape with four hexadecimal digits writes the character of that code, and is refused exactly for a surrogate |
| Escapes.LongCode | internal/explorer/query.go:314-319 | the same for eight digits, refused also beyond the last code point |
| Escapes.UnknownEscape | internal/explorer/query.go:314-319 | an escape with any other character is refused |
| QueryAtoms.ScanJsonQuote | web/src/features/explorer/query.ts:3-5 | nothing inside a quoted literal closes it or moves the depth, whatever the value |
| QueryAtoms.CompareAtomic | internal/explorer/query.go:21-60 | a printed comparison holds no operator and is balanced, whatever its value contains |
| QueryAtoms.WordAtomic | internal/explorer/query.go:21-60 | the same for a comparison with any bare word |
| QueryAtoms.SearchAtomic | internal/explorer/query.go:21-60 | the same for SEARCH with any balanced text in its parentheses |
| QueryAtoms.ParensAtomic | internal/explorer/query.go:38-48 | balanced text in parentheses hides every operator inside it |
| QueryClauses.ClauseCompare | internal/explorer/query.go:306-328 | a printed comparison is read as its field, operator and decoded value |
| QueryClauses.ClauseSpread | internal/explorer/query.go:306-328 | so is one with any blanks, or none, around its operator |
| QueryClauses.ClauseTicked | internal/explorer/query.go:306-328 | a value in backticks is taken as it stands |
| QueryClauses.ClauseWord | internal/explorer/query.go:306-328 | a printed bare word is the expected value as it stands |
| QueryClauses.ClauseFree | internal/explorer/query.go:306-309 | a clause that is no comparison is a search for its words or its quoted text |
| QueryClauses.ClauseSearch | internal/explorer/query.go:297-305 | SEARCH with words, a quoted text or a text in backticks is that search |
| QueryClauses.ClauseSearchIn | internal/explorer/query.go:297-305 | what stands before the first comma in SEARCH is passed over |
| QueryClauses.ClauseSearchFolds | internal/explorer/query.go:297-305 | SEARCH is written in any case |
| QueryPrinter.PrintedMeaning | internal/explorer/query.go:292-374 | for every tree of comparisons with quoted, backticked and bare values, free words and phrases, SEARCH with and without a scope, groups, AND, OR and embedded user text, and every entry: MatchesQuery of the printed text is the tree's truth value |
| QueryPrinter.PrintShape | web/src/features/explorer/query.ts:15-33 | every printed tree is balanced and trimmed, and one that is no OR holds no free-standing OR |
| QueryPrinter.BalancedRewrite | internal/explorer/query.go:331-354 | balanced user text stays balanced when its line breaks are rewritten |
| QueryClient.BuildBasicQuery | web/src/features/explorer/query.ts:8-28 | the clauses pushed are those of the set controls, in order, each printed as its tree prints |
| QueryGroups.BalancedIsHidden | internal/explorer/query.go:38-48 | balanced text is hidden by its parentheses: they close behind it and free no operator |
| QueryGroups.ParenthesesAreHidden | internal/explorer/query.go:38-48 | so is unbalanced text of closed parentheses alone |
| QueryGroups.UnbalancedButClosed | internal/explorer/query.go:38-48 | `)(` is such a text |
| QueryGroups.GroupThenTree | web/src/app/bootstrap.ts:844-849 | hidden text in parentheses AND a printed tree means both |
| QueryGroups.ParsesExactlyHidden | internal/explorer/query.go:21-60 | for every text and every single clause, the combined text splits into exactly these two if and only if the text is hidden |
| QueryClient.ExplorerQueryMeaning | web/src/features/explorer/query.ts:30-34 | the visible query matches exactly the entries whose fields equal every set control, whose text contains the search text, and that the hidden advanced text matches |
| QueryClient.JsTrimParts | web/src/features/explorer/query.ts:32-32 | the client's trim cuts white space off both ends and nothing else |
| QueryClient.CombinedMeaning | web/src/features/explorer/query.ts:33-33 | `basic AND (advanced)` means both, for all hidden advanced text |
| QueryClient.FilterAction | web/src/app/bootstrap.ts:844-849 | `(old) AND field op value` matches exactly what old matches and the field test accepts, for all hidden old text and all values |
| QueryClient.FilterParses | web/src/app/bootstrap.ts:844-849 | for every old text: it is read as the old query and the added clause if and only if the old text is hidden |
| QueryClient.FieldFilterNarrows | web/src/app/bootstrap.ts:844-849 | the filter action on whatever hidden query the editor holds, an empty one included, narrows it by exactly the field test |
| QueryClient.UnbalancedQueryEscapes | web/src/app/bootstrap.ts:844-849 | with old text that is not hidden an entry that fails the new field test still matches |
| QueryFields.ReadsBackExactly | internal/explorer/query.go:306-328 | for every field the written clause is one clause with that field and operator if and only if the field is a name |
| QueryFields.SpacedFieldFails | web/src/app/bootstrap.ts:844-849 | a field of two words is read as a text search, and an entry that has the value does not match |
| QueryTrims.TrimKeepsParts | internal/explorer/query.go:49-58 | for every text, trimming changes its parts if and only if it frees an operator at one end from a space that is no boundary |
| QueryTrims.PlainBlanksKeepParts | internal/explorer/query.go:49-58 | spaces, tabs and newlines around a text never matter |
| QueryTrims.CleanJoined | internal/explorer/query.go:353-362 | joined text keeps its parts when it is trimmed if its two ends do |
| QueryLines.LinesMeanConjunction | internal/explorer/query.go:331-374 | closed, OR-free lines that keep their parts, joined by newlines, empty ones included, mean the conjunction of the lines |
| QueryLines.IndentedLineIsPlain | internal/explorer/query.go:331-374 | indentation and trailing blanks do not take a line out of that law |
| QueryLines.KeepsPartsExactly | internal/explorer/query.go:353-362 | a line keeps its parts if and only if trimming it frees no operator at its ends |
| QueryLines.LineInContext | internal/explorer/query.go:331-374 | between two trimmed lines a line is split as it is alone if and only if it keeps its parts |
| QueryLines.UntrimmedLineDiffers | internal/explorer/query.go:49-52 | a line that begins with a space which is trimmed but is no operator boundary matches alone and not behind another line |
| Budget.DropOldestIsLeast | internal/storage/sqlite/sqlite.go:106-119 | the simple loop keeps a suffix that fits, and no longer suffix fits |
| Budget.LeastCutIsDropCount | internal/agent/spool.go:112-124 | only one cut has that property, so any loop that finds it drops the same items |
| Rows.OrderedRows | internal/storage/sqlite/sqlite.go:110-111 | ORDER BY timestamp and insert id lists every row once, strictly sorted |
| Rows.OrderedIs | internal/storage/sqlite/sqlite.go:110-111 | any strictly sorted listing of the rows is that listing |
| Store.RangeDelete | internal/storage/sqlite/sqlite.go:124-125 | deleting up to the k-th row's ordering key removes exactly the first k rows, timestamp ties included |
| Store.BudgetKeepsNewest | internal/storage/sqlite/sqlite.go:90-130 | what is left, in order, is what "delete the oldest while over budget" leaves, and the count is the rows removed |
| StoreLaws.WriteOutcomes | internal/storage/sqlite/sqlite.go:257-287 | a batch is refused for more than 50000 entries, a duplicate exactly when it carries anything and its receipt is there, failed exactly when it is neither and an id is white space alone |
| StoreLaws.WrittenRow | internal/storage/sqlite/sqlite.go:284-317 | a row that was there stays; a new one is the first entry of its id, with batch, time and line |
| StoreLaws.WrittenReceipt | internal/storage/sqlite/sqlite.go:270-283 | exactly the receipt of an accepted batch with content is entered, dated now |
| StoreLaws.LastReport | internal/storage/sqlite/sqlite.go:366-400 | the last report of a container gives its name and metadata, and it was seen now |
| StoreLaws.KnownContainer | internal/storage/sqlite/sqlite.go:366-400 | counts are written once; whether a container is active changes only when that is asked for |
| StoreLaws.DatedReport | internal/storage/sqlite/sqlite.go:390-392 | the oldest time is the last positive one reported |
| StoreLaws.UndatedReports | internal/storage/sqlite/sqlite.go:390-392 | without one a known container keeps its own |
| StoreLaws.SyncFailures | internal/storage/sqlite/sqlite.go:334-359 | a snapshot fails exactly when the node or an item has no id, or an item names another node |
| StoreLaws.SyncedContainer | internal/storage/sqlite/sqlite.go:334-364 | per container: listed ones are active and seen now, the others of the node inactive and otherwise unchanged, those of other nodes unchanged |
| StoreLaws.CleanedRow | internal/storage/sqlite/sqlite.go:66-130 | per row: kept, unchanged, if and only if it is young by its mode and fits together with the young rows not before it |
| StoreLaws.BudgetRow | internal/storage/sqlite/sqlite.go:90-130 | the budget keeps a row exactly when the payload of the rows not before it is within the budget |
| StoreClass.SqliteStore.Open | internal/storage/sqlite/sqlite.go:161-184 | a retention that is not positive is refused, else a new database has empty tables |
| StoreClass.SqliteStore.WriteBatch | internal/storage/sqlite/sqlite.go:257-329 | an atomic write: refused, accepted, duplicate, or failed and rolled back; an accepted batch leaves its receipt dated now, keeps every row there was and has a row for each of its ids |
| StoreClass.SqliteStore.InsertEntries | internal/storage/sqlite/sqlite.go:284-317 | entries are inserted unless their id exists; the first nameless one fails the batch |
| StoreClass.SqliteStore.UpsertContainers | internal/storage/sqlite/sqlite.go:318-325 | batch metadata updates a container without touching whether it is active |
| StoreClass.SqliteStore.SyncContainers | internal/storage/sqlite/sqlite.go:334-364 | a snapshot makes exactly the containers it lists active on its node and leaves other nodes alone, or changes nothing when an item is bad |
| StoreClass.SqliteStore.Cleanup | internal/storage/sqlite/sqlite.go:52-133 | without a budget a row is kept if and only if, by mode, it is not before the boundary, or its container reports no positive oldest time above it, or both; with one if and only if it also fits together with the young rows not before it; kept rows do not change, and the count is of logs only |
| StoreClass.SqliteStore.DeleteOverBudget | internal/storage/sqlite/sqlite.go:90-130 | the sum, scan and range delete leave the budgeted table, and the scan always reaches the budget |
| StoreClass.SqliteStore.CleanupAuxiliary | internal/storage/sqlite/sqlite.go:135-154 | a receipt is kept exactly when it is within the replay window, seven days unless configured, or a log of its batch is kept; a container exactly when it is active, seen within it, or has a log |
| StoreRuns.RetainedLogsHaveReceipts | internal/storage/sqlite/sqlite.go:135-147 | in every run every retained log of an agent has its receipt |
| StoreRuns.ReceiptStep | internal/storage/sqlite/sqlite.go:135-147 | a receipt is lost in one transaction only: a cleanup past the replay window that keeps no log of the batch |
| StoreRuns.SecondAcceptanceNeedsCleanup | internal/storage/sqlite/sqlite.go:270-283 | a batch is accepted twice only if a cleanup in between dropped its receipt, past the window and with none of its logs retained |
| StoreRuns.AcceptedAtMostOnce | internal/storage/sqlite/sqlite.go:270-283 | without a cleanup a batch identity is accepted at most once |
| StoreRuns.RedeliveryStutters | internal/storage/sqlite/sqlite.go:279-282 | a delivery changes no table if and only if its receipt is kept, it has nothing to write, or it fails |
| StoreRuns.ExactlyOnce | internal/storage/sqlite/sqlite.go:257-329 | while every batch that comes again has its receipt, cleanups or not, a run ends in the tables of the run that applies each batch once, in first-arrival order |
| StoreRuns.ForgottenByCleanup | internal/storage/sqlite/sqlite.go:135-147 | a batch that comes again without its receipt was forgotten by a cleanup, past the window and with no log of it kept |
| StoreRuns.ExactlyOnceUnlessForgotten | internal/storage/sqlite/sqlite.go:257-329 | so a run in which no cleanup forgets a batch is exactly-once |
| StoreRuns.HeartbeatAuthority | internal/storage/sqlite/sqlite.go:318-364 | after any run a node's active containers are the ids of its last successful snapshot |
| IngestRules.CheckedEntries | internal/ingest/service.go:44-56 | the loop accepts exactly when every entry has an id and no entry claims another node |
| IngestRules.CheckMeans | internal/ingest/service.go:34-67 | a request passes if and only if version and identity are given, the agent is the node, there are at most 500 entries, each with an id, and nothing names another node |
| IngestRules.CheckAccepts | internal/ingest/service.go:34-67 | a batch of named, own and few entries passes every check |
| IngestRules.SuccessLeavesReceipt | internal/ingest/service.go:68-81 | a success reply to a batch with content leaves its receipt, whether it was new or a repeat |
| Ingest.StampEntries | internal/ingest/service.go:44-59 | the loop stops at the first bad entry, a missing id noticed before a foreign node, else every entry carries the node's labels |
| Ingest.StampContainers | internal/ingest/service.go:60-67 | the same for container metadata, node name included |
| Ingest.Ingest | internal/ingest/service.go:34-81 | a rejected batch changes neither store nor bus; an accepted one is written and published, a repeat is neither |
| Ingest.PublishEntries | internal/ingest/service.go:75-79 | the entries are published in order |
| Ingest.PublishesNew | internal/ingest/service.go:75-79 | what the bus accepts of a batch is a part of it, in order |
| Ingest.NewIsAccepted | internal/ingest/service.go:75-79 | and has every entry whose id is new to bus and batch |
| AgentClass.BatchQueue.Add | internal/agent/batch.go:34-50 | full is refused unchanged, else the entry is appended and its bytes counted |
| AgentClass.BatchQueue.Ready | internal/agent/batch.go:60-64 | ready if and only if the entries or their bytes reach the configured limits |
| AgentClass.BatchQueue.SetContainers | internal/agent/batch.go:52-58 | the map after the loop is that of the reports applied in order |
| AgentLaws.LastDiscovered | internal/agent/batch.go:52-58 | the last report of a container counts |
| AgentLaws.Undiscovered | internal/agent/batch.go:52-58 | one that is not reported keeps what the queue knew of it |
| AgentClass.BatchQueue.Flush | internal/agent/batch.go:78-94 | a nonempty queue gives all its content under the next sequence and is empty afterwards |
| AgentClass.Spool.Write | internal/agent/spool.go:37-66 | the item takes its place by sequence and boot, replacing the file of the same name; whatever is not over the age limit and fits the size limit with the young items behind it stays, also when the pruning fails; when nothing fails what is left is within both limits |
| AgentClass.Spool.PruneLocked | internal/agent/spool.go:92-126 | every kept item is within the age limit, and one within it is removed only if it and the young items behind it exceed the size limit; when a removal fails, so many and no others are gone |
| SpoolLaws.InsertItem | internal/agent/spool.go:44-65 | the new file takes its place in replay order and replaces the one of the same name, no other |
| SpoolLaws.PruneIsSurvivors | internal/agent/spool.go:92-126 | a pruning leaves exactly the items within the age limit that fit the size limit with the young ones behind them |
| SpoolLaws.AgeComesFirst | internal/agent/spool.go:97-124 | wherever a pruning fails, no item within the age limit is gone while one over it is left |
| AgentClass.Agent.SendBatch | internal/agent/agent.go:157-162 | a send is lost, applied with a lost answer, or answered, and the Hub changes accordingly |
| AgentClass.Agent.ReplaySpool | internal/agent/agent.go:166-180 | items are sent and removed from the front until one fails |
| AgentClass.Agent.WriteToSpool | internal/agent/agent.go:154-160 | a failed write and every removed item, those of a pruning that then fails included, are recorded; nothing else is lost |
| AgentClass.Agent.TakeBatch | internal/agent/agent.go:107-149 | the flushed batch is the queue's content |
| AgentClass.Agent.FlushQueue | internal/agent/agent.go:148-164 | replay first, then the new batch, which goes to the spool when either fails |
| AgentClass.Agent.AbandonQueue | internal/agent/agent.go:100-114 | an early return drops the queue, recorded |
| AgentClass.Agent.FlushIfReady | internal/agent/agent.go:116-120 | a ready queue is flushed |
| AgentClass.Agent.MakeRoom | internal/agent/agent.go:106-111 | a full queue is flushed and its batch written to the spool |
| AgentClass.Agent.AddAgain | internal/agent/agent.go:112-120 | the second attempt adds the entry and flushes a ready queue, or abandons the queue |
| AgentClass.Agent.Collect | internal/agent/agent.go:100-120 | one arriving entry: named, then added, or flushed to the spool first, or the collection returns |
| EntryIds.InsertIdUnique | internal/agent/agent.go:104-105 | an entry id names its boot and its counter |
| EntryIds.InsertIdInOrder | internal/agent/agent.go:104-105 | the ids of one boot sort in the order of collection, so entries with the same time keep it in the index |
| SpoolLaws.PrunedKeeps | internal/agent/spool.go:92-126 | wherever a pruning fails, what is left is a part of the spool in replay order |
| SpoolLaws.PruneUpToRemoves | internal/agent/spool.go:92-126 | a pruning that fails after n removals has removed n of the items it is to remove, or all of them |
| DeliverySteps.SendKeyed | internal/agent/agent.go:157-162 | whatever a request brings about, rows stay under their ids |
| DeliveryRuns.SendEffect | internal/agent/agent.go:157-162 | a success means the batch was accepted, now or before; a first acceptance is entered once |
| AgentLaws.AnsweredSendDelivers | internal/agent/agent.go:157-162 | an answered request for a batch that passes the checks succeeds, a repeat too, and leaves its receipt |
| DeliveryRuns.ActSound | internal/agent/agent.go:78-180 | every action keeps the delivery invariant: spool sorted, sequences due, the batch in hand the newest of its boot, everything flushed accounted for |
| DeliveryRuns.NoBatchDisappears | internal/agent/agent.go:148-180 | over every run, with the process ending at any action, a flushed batch is applied at the Hub, in the spool, in hand, or recorded as pruned, unsaved or cut off |
| DeliveryRuns.PrunedWereDue | internal/agent/spool.go:92-126 | over every run a batch entered as pruned was, at one of the run's writes, over the age limit, or did not fit the size limit with the young ones behind it |
| DeliveryRuns.BootsArriveInOrder | internal/agent/spool.go:153-158 | the Hub first accepts the batches of one boot in strictly increasing sequence |
| DeliveryBooks.EntriesAreConserved | internal/agent/agent.go:98-146 | collected entries are, in order, those of the flushed batches and recorded drops, then the queue, then the one just refused |
| DeliveryBooks.IdentitiesAreFresh | internal/agent/agent.go:84-85 | no batch identity is used twice, across restarts of collection and agent |
| DeliveryBooks.BatchesRespectTheLimit | internal/agent/agent.go:98-120 | every flushed batch is within the configured and the Hub's entry limit, over every run |
| DeliveryBooks.SecondAttemptSucceeds | internal/agent/agent.go:106-115 | after a full queue went to the spool the second Add never fails, over every run |
| DeliveryRows.EntryIdsAreFresh | internal/agent/agent.go:104-105 | over restarts of the agent no two collected entries have the same id |
| DeliveryRows.AppliedEntriesAreStored | internal/ingest/service.go:34-81 | every entry of a batch the Hub accepted is in its tables under that very batch, owned by the node, unless a cleanup deleted the row or a batch of another agent holds the id |
| DeliveryRows.StoredRowsWereFlushed | internal/ingest/service.go:34-81 | every row stored under a batch of this agent is an entry of a batch it flushed and the Hub accepted |
| DeliveryRefines.ReplaySteps | internal/agent/agent.go:166-180 | the replay loop is a run of the protocol's actions |
| DeliveryRefines.FlushQueueSteps | internal/agent/agent.go:148-164 | so is a whole flush |
| AgentLaws.QuietFlushDelivers | internal/agent/agent.go:148-180 | when nothing fails, a flush leaves queue and spool empty with every batch at the Hub |
| DeliveryRefines.CollectSteps | internal/agent/agent.go:100-120 | so is everything one arriving entry brings about |
| DeliveryHub.HubRunsItsTrace | internal/agent/agent.go:148-180 | the Hub's tables in a delivery run are those of the store run of its transactions |
| DeliveryHub.DeliveryIsExactlyOnce | internal/agent/agent.go:148-180 | while every batch that comes again has its receipt, they are those of applying each batch identity once, in first-arrival order |
| DeliveryHub.DeliveryIsExactlyOnceUnlessForgotten | internal/agent/agent.go:148-180 | in particular when no cleanup forgets a batch |
| Search.SearchEntries | internal/storage/sqlite/sqlite.go:405-486 | every returned row lies in the requested range, by default from 0 to now, has the requested severity and stream, is named by each selection with anything enabled, by node id or name, container id, name or its first 12 characters, and matches the query; when not truncated every row that does is returned; truncated means 50000 are, and more match; in order |
| Search.AnswersMeans | internal/storage/sqlite/sqlite.go:488-524 | where clause and filter together are exactly that, for severities with spaces or in lower case, too |
| Search.ReadChunk | internal/storage/sqlite/sqlite.go:443-465 | one chunk extends the matches by exactly the rows behind the last one read |
| Search.ResumeIsSuffix | internal/storage/sqlite/sqlite.go:431-441 | resuming behind row k reads exactly the rows after k, timestamp ties included |
| Search.MatchesAreComplete | internal/storage/sqlite/sqlite.go:488-512 | the one-pass result holds exactly the rows that pass the where clause and the filters |
| SearchPages.FilterEntries | internal/explorer/service.go:193-207 | the service keeps exactly the entries with the severity, in any case, and stream, matching the query, and named by a value that is on in each selection that is not empty, in order |
| SearchPages.SortedResponse | internal/explorer/service.go:299-313 | any sort of what is kept gives one and the same response |
| SearchPages.TokensYieldEveryMatch | internal/explorer/service.go:171-291 | following the tokens over a table gives a strictly sorted list of matches in pages within the limit, and every match when at most 50000 match, for every spelling of the sort order |
| Search.FinalSortIsIdentity | internal/storage/sqlite/sqlite.go:473-484 | the final sort cannot change the result |
| Pages.PaginateResponse | internal/explorer/service.go:262-291 | the page is the slice behind the cursor of at most the clamped limit, with a token exactly when more follow |
| Pages.ClampLimit | internal/explorer/service.go:277-283 | a limit from 1 to 1000 is kept, a smaller one is 100, a larger one 1000 |
| Pages.StartIsFirst | internal/explorer/service.go:263-272 | the page begins at the first entry behind the cursor |
| Pages.StartSeparates | internal/explorer/cursor.go:80-91 | in a sorted result the cursor separates a prefix from a suffix |
| Pages.StartAfterToken | internal/explorer/service.go:287-289 | the token of a page resumes right behind that page |
| Pages.WalkIsComplete | internal/explorer/service.go:262-291 | following tokens yields the whole result once, in pages within the limit, in both orders, and ends |
| Pages.DeliveredSorted | internal/explorer/service.go:262-291 | with entries arriving between pages what is delivered stays strictly sorted, so nothing repeats |
| Pages.NothingIsLost | internal/explorer/service.go:262-291 | an entry present at the start is delivered by the end of the walk, whatever arrives in between |
| Pages.InsertionsDoNotDisturb | internal/explorer/service.go:262-291 | a complete walk delivers every original entry exactly once |
| Timeline.NormalizeTimelineBuckets | internal/explorer/timeline.go:50-61 | the count is within 24 and 96, kept when it already is, 24 when it is not positive |
| Timeline.GridOf | internal/explorer/timeline.go:64-73 | the requested count exactly when the range has that many nanoseconds, else one bucket; spans are positive and fit |
| Timeline.Tiling | internal/explorer/timeline.go:74-81 | buckets are contiguous and nonempty from `from` to `to` |
| Timeline.PlaceIsExact | internal/explorer/timeline.go:83-89 | an entry in range is counted in the one bucket whose interval holds it, the last closed; one outside in the first or the last |
| Timeline.RankIs | internal/explorer/query.go:158-181 | the rank of each of the nine severities, in any case, is a hundred for each one below it |
| Timeline.RankIsKnown | internal/explorer/query.go:158-181 | no other text has a rank |
| Timeline.ClassesFollowRank | internal/explorer/timeline.go:91-103 | a higher severity is never counted lower; each class is an interval of ranks, ERROR from 500 up, WARNING from 400, DEBUG up to 100, and everything else INFO |
| Timeline.ShownAsThemselves | internal/explorer/timeline.go:91-103 | each of the four shown severities is counted as itself |
| Timeline.BuildTimeline | internal/explorer/timeline.go:63-107 | nothing for an empty range, else each bucket's bounds, total and severities count exactly the entries placed in it |
| Timeline.PlacedIsCount | internal/explorer/timeline.go:82-90 | a bucket's total is the number of positions whose entry is placed in it |
| Timeline.PlacedAsIsCount | internal/explorer/timeline.go:91-104 | and each of its severities the number of those of that class |
| Timeline.HistogramIsComplete | internal/explorer/timeline.go:82-105 | the totals add up to the number of entries and each total to its four severities |
| Alerts.BoundsAreReal | internal/alert/rule.go:139-144 | for an accepted rule the window is the product, and within seven days, exactly when its seconds do not exceed 9223372036; the same for the cooldown and thirty days |
| Alerts.BoundsMean | internal/alert/rule.go:136-144 | for rules whose products do not wrap: threshold from 1 to 1000000, window up to 604800 and cooldown up to 2592000 seconds |
| AlertWraps.WrappedWindowIsAccepted | internal/alert/rule.go:139-141 | a rule with a wrapped, negative window is accepted |
| AlertWraps.WrappedCooldownIsAccepted | internal/alert/rule.go:142-144 | so is one with a wrapped, negative cooldown, and it sends two firings three seconds apart |
| Alerts.TrimMatches | internal/alert/rule.go:228-237 | the loop drops the leading matches before the cutoff and no others |
| Alerts.TrimIsSince | internal/alert/rule.go:228-237 | on rising times that is keeping exactly the ones not before the cutoff |
| AlertWraps.WindowIsExactly | internal/alert/engine.go:319-366 | the stored matches are the arrivals of [now - window, now] over every run if and only if the window is not negative |
| AlertWraps.FiringIsExactly | internal/alert/engine.go:323-386 | FIRING is entered exactly at a match whose window count reaches the threshold and left exactly at a tick below it, with the incident's largest count for its peak and the time and container of the match that began it, over every run of an accepted rule if and only if its window is not negative or its threshold above one |
| Alerts.PeakBounds | internal/alert/engine.go:324-333 | no window count of an incident is above its peak |
| Alerts.PeakIsAttained | internal/alert/engine.go:324-333 | and some match of the incident has the peak for its count |
| Alerts.NotificationsAlternate | internal/alert/engine.go:334-380 | notifications alternate, beginning with firing, and the state remembers the last firing |
| Alerts.AlternatesAt | internal/alert/engine.go:334-380 | the even ones are firings, consecutive firings at least the cooldown apart, the cooldown being the product as it wraps |
| Alerts.SuppressedIncidentIsSilent | internal/alert/engine.go:334-380 | an incident whose firing was suppressed sends nothing, its end included |
| AlertWraps.ReportsExactly | internal/alert/engine.go:341-372 | for the same rules a firing is sent exactly when an incident begins and the last firing is the cooldown ago, with the count that reached the threshold and the time and container of that match; a resolution exactly when an incident ends whose firing was sent, with its peak and the time and container it began with |
| AlertLife.StepSound | internal/alert/engine.go:109-134 | every step, edit, failed write, restart and lost notification keeps the balance of firings, lost ones counted in, over resolutions |
| AlertLife.ResolvedAreCovered | internal/alert/engine.go:347-409 | with edits, failed writes, restarts and lost notifications in any order, no prefix of a rule's notifications has more resolutions than firings and lost firings together |
| AlertLife.BalanceIsExact | internal/alert/engine.go:347-409 | firings, lost ones included, are resolutions, the one owed, and the announced incidents that ended without one |
| AlertLife.OverdrawnExactly | internal/alert/engine.go:347-409 | more resolutions than firings have arrived if and only if the lost firings outnumber the one owed and the incidents dropped |
| AlertLife.NeverMoreResolved | internal/alert/engine.go:536-543 | no prefix has more resolutions than firings if and only if at no point of the run they do |
| AlertLife.LostFiringOverdraws | internal/alert/engine.go:347-353 | a firing saved and not sent, a restart and a tick: the only notification is a resolution |
| AlertEngine.RecordMatch | internal/alert/engine.go:319-345 | the loop body is the match step of one rule |
| AlertEngine.RecordTick | internal/alert/engine.go:365-387 | the loop body is the resolve step of one rule, and it reports whether anything changed |
| AlertEngine.OpIsStep | internal/alert/engine.go:307-396 | whatever the engine does is, for each rule that stays, one step of that rule's own life |
| AlertEngine.EngineStaysHealthy | internal/alert/engine.go:88-396 | over every run of the engine, with any write failing and any notification lost, every rule is within bounds and in balance |
| AlertEngine.EngineResolvedAreCovered | internal/alert/engine.go:88-409 | for every rule of every such run no prefix of its notifications has more resolutions than firings and lost firings together |
| AlertEngine.EngineOverdrawnExactly | internal/alert/engine.go:88-409 | for every rule of every such run, more resolutions than firings if and only if the lost firings outnumber the one owed and the incidents dropped |
| AlertEngine.Engine.constructor | internal/alert/engine.go:78-86 | a new engine has no rules |
| AlertEngine.Engine.MatchRules | internal/alert/engine.go:315-346 | in any order, and rule by rule: one that is disabled or does not match keeps its state and has nothing listed, an enabled matching one takes the match step and has its notification listed |
| AlertEngine.Engine.ProcessEntry | internal/alert/engine.go:307-354 | rule by rule the same, and what is listed arrives unless the rule is silent; the store file is written exactly when an enabled rule matched and it can be |
| AlertEngine.DisabledNeverFires | internal/alert/engine.go:315-318 | over every run, while a rule stays disabled no firing of it is sent and none is lost |
| AlertEngine.Engine.ResolveRules | internal/alert/engine.go:364-388 | in any order, every rule, disabled ones too, takes a resolve step |
| AlertEngine.Engine.Resolve | internal/alert/engine.go:356-396 | the store file is written exactly when a rule lost matches or resolved and it can be |
| AlertEngine.HandOver | internal/alert/engine.go:398-409 | exactly the notifications that are not lost arrive, in the order of the list, a failing one stopping no other |
| AlertEngine.Engine.List | internal/alert/engine.go:235-245 | listing trims every rule's matches and saves nothing |
| AlertEngine.Engine.Create | internal/alert/engine.go:88-107 | an accepted rule starts fresh; a failed write leaves no trace of it |
| AlertEngine.Engine.Update | internal/alert/engine.go:109-134 | the edited rule starts fresh; a failed write restores rule and state |
| AlertEngine.Engine.Patch | internal/alert/engine.go:139-211 | each field the patch names is set, the others are kept; a missing rule is noticed before an invalid one |
| AlertEngine.Engine.Delete | internal/alert/engine.go:217-233 | the rule goes; a failed write restores it |
| AlertEngine.Engine.Load | internal/alert/engine.go:484-551 | a restart takes the stored states with the matches of the window; a rule is firing exactly when it was stored so and still has enough of them, else its incident is gone without a word |
| Broker.SeenIsWindow | internal/logstream/broker.go:52-62 | over every run the seen set is exactly the last 4096 accepted ids, each once |
| Broker.SubscribersAreServed | internal/logstream/broker.go:63-92 | over every run each subscriber gets a subsequence of the accepted entries that match its selection, its channel holds the last of them, and nothing is sent to a closed one |
| Broker.NothingIsMissed | internal/logstream/broker.go:63-72 | over every run, while a subscriber is a member and has room it is sent every accepted entry that its selection wants, in order, and nothing else |
| Broker.EventBus.Publish | internal/logstream/broker.go:49-73 | an id among the seen ones changes nothing; else the entry is accepted, and each member whose start, containers and nodes select it and that has fewer than 1024 waiting is sent it, no other |
| Broker.EventBus.Broadcast | internal/logstream/broker.go:63-72 | in any order, exactly the matching subscribers with room are sent the entry |
| Broker.EventBus.Subscribe | internal/logstream/broker.go:27-47 | a new open subscriber with nothing sent |
| Broker.EventBus.CloseSubscription | internal/logstream/broker.go:87-92 | the subscriber leaves the bus before its channel is closed |
| Frames.StreamRawDockerFrames | internal/docker/stream.go:57-84 | for every way of cutting the input into chunks the frames and the end are those of the input alone, up to the first refused frame |
| Frames.RawFramesSplit | internal/docker/stream.go:57-84 | raw frames are a beginning of the input, and all of it, split at newlines, when nothing failed |
| Frames.SplitIsUnique | internal/docker/stream.go:57-84 | there is only one newline split of an input |
| Frames.LinesAreDelivered | internal/docker/stream.go:57-84 | input whose lines are within the limit is delivered line by line |
| Frames.FollowFrames | internal/docker/stream.go:23-50 | the frame loop yields the decoding of the input, up to the first refused frame |
| Frames.StreamDockerFrames | internal/docker/stream.go:13-51 | raw or multiplexed by the first eight bytes, with the matching decoding |
| Frames.CollectFrames | internal/docker/stream.go:100-126 | the batch loop carries its frames and running total through the decoding |
| Frames.CollectedIsMux | internal/docker/stream.go:100-126 | that is the decoding with payloads limited together |
| Frames.ReadDockerFrames | internal/docker/stream.go:86-127 | one raw frame within the limit, or the batch decoding |
| Frames.HeaderSays | internal/docker/stream.go:32-55 | an encoded header is recognised and gives back stream and length |
| FrameLimits.TextIsRaw | internal/docker/stream.go:19-21 | input without a stream byte and three zeros in front is text |
| Frames.StreamingDeliversCompleteFrames | internal/docker/stream.go:23-50 | any frames come back; input cut after at least eight bytes delivers exactly the complete ones, without an error |
| Frames.CompleteIsLargest | internal/docker/stream.go:23-50 | the frames delivered are the longest list that fits the bytes |
| Frames.CutHeaderBecomesText | internal/docker/stream.go:19-21 | input cut inside the first header is delivered as text |
| Frames.StreamingCuts | internal/docker/stream.go:13-51 | for every cut: exactly the complete frames are delivered if and only if nothing or at least eight bytes arrived |
| Frames.ReadingCuts | internal/docker/stream.go:86-127 | for the batch reader if and only if at least eight bytes arrived |
| Frames.ReadingGivesFramesBack | internal/docker/stream.go:100-126 | frames whose payloads fit together come back; a cut gives the complete ones, with an error exactly when it is inside a payload |
| FrameLimits.OversizedFrame | internal/docker/stream.go:37-40 | a header that announces more than eight mebibytes, in one payload or for a batch in all together, ends the decoding behind the frames before it |
| FrameLimits.LongLine | internal/docker/stream.go:60-65 | a line over the limit ends the stream behind the lines before it |
| FrameLimits.FailedRead | internal/docker/stream.go:100-112 | a read that fails reports the failure behind the frames before it |
| FrameLimits.RefusedIsLast | internal/docker/stream.go:44-49 | a frame that the callback refuses is the last one it gets |

## Left out

- HTTP, server-sent events, compression and the agent's transport: a send is lost, applied with a lost answer, or answered; a request arrives before its sender gives up, or never.
- Signing, challenges, nonces, enrollment and Hub pinning.
- SQLite itself, the SQL text, indexes, migration and the tables for nodes and tokens; statistics columns of containers. A call that fails inside the database is rolled back and is a fault event of a run.
- Files: a spool is a list in replay order, an alert store a copy of the states that is written as a whole or not at all. Boot ids are taken to be safe as file names.
- `logstream.Manager`, `BatchQueue.Run`, goroutines and contexts. Channels are sequences with a bound; each locked operation is one step.
- `compareExplorerValue`, `queryValue` and `explorerSearchText` are given functions of an entry, so JSON numbers and field lookup are not modelled.
- Lone surrogates, invalid UTF-8 and case folding beyond ASCII; in unquoting, `\x` and octal escapes above 7F give a character and not a raw byte.
- Query suggestions, redaction, webhook payloads, provider detection, rendering and URL state.
- Cursor encoding, time windows of requests, container counts and field groups of a search response.
- QueryClient.ExplorerQueryMeaning: the severity control holds a word without white space, quote marks and parentheses, other than AND and OR, that does not begin with an equals sign; its select offers nothing else.
- Search.SearchEntries: takes the table as an argument.
- StoreClass.SqliteStore.Open: a path that already holds a database with tables is not modelled; the contract starts from empty ones.
- AlertEngine.Engine.Load: hand-edited store files (missing status, unknown status, duplicate ids) and the text fields of a rule are not modelled; matching of an entry against a rule's query is a given set of rule ids.
- AlertEngine.Engine.List: the views it returns and their order by name are not modelled.
- AlertEngine.Engine.Create: of the validation, the numeric bounds; the checks of name, query, URL, labels and sample mode are not modelled.
- AlertEngine.Engine.Update: the same.
- AlertEngine.Engine.Patch: the numeric fields and the enabled flag; text fields are not modelled.
- Frames.StreamRawDockerFrames: a delivered line's buffer is reused by the next line; frames here are values, so a callback that keeps the buffer is outside the model.
- AgentClass.BatchQueue.Flush: the order in which a map lists its containers is arbitrary and is an output of the method; sequences do not wrap at 64 bits.
