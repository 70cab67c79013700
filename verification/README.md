# syslog-yard, verified

A Dafny model of the parts of syslog-yard where being wrong is easy, with proofs of what they promise.
`dafny verify dfyconfig.toml` checks everything. Each file is one module.

| File | What it models | Main result |
|---|---|---|
| `Condition.dfy`, `Validity.dfy`, `Like.dfy`, `ConditionSql.dfy` | The bucket's condition AST: validation, the in-memory matcher, the compiler to SQL with bind parameters | The compiled SQL never errors and is TRUE in three-valued logic exactly when the matcher says yes; a tree is valid exactly when each node is |
| `RuleEngine.dfy`, `EngineEffect.dfy` | Rules at ingest and one rule over history | Both leave an entry in the same state, through the two meanings of its condition; the engine does exactly what the matching rules ask |
| `Lexer.dfy`, `Spelling.dfy`, `Shapes.dfy`, `Websearch.dfy`, `Queries.dfy` | The in-memory text search | Lexemes spell out the text's letters, none lost or out of order; parsing undoes writing a query, so a message matches exactly when it has what some group of the query asks for |
| `FlowGraph.dfy`, `FlowPaths.dfy` | The valve's flow graph, its cycle check, and its flattening into paths | Flat paths deliver every message exactly as often as a token walking the graph |
| `ConfigGen.dfy`, `ConfigRouting.dfy`, `EnabledRouting.dfy` | Identifiers and the generated configuration | The configuration, read by name, routes like the graph with its switched-off nodes in place; every name is declared, once |
| `Ingest.dfy` | The ingest pipeline under concurrency, database errors and shutdown | Conservation of entries, ordered broadcast, no send on a closed queue, over every interleaving; what is queued can always be inserted |
| `JobLifecycle.dfy` | The hose's start, halt, edit, delete and run exit | One run per job, at most its limit of events sent, `done` closed once, no run after delete, over every interleaving |
| `Supervisor.dfy` | The valve's reload and apply protocol | One verdict per reload, and the right one; what an apply leaves behind, decided by the child and its own verdict |
| `Yardauth.dfy` | The shared session cache | No user is returned for a token revoked 30 s before the request |
| `Throttle.dfy` | The two-level login throttle | One source can never lock an account for everyone, a brute force over many is stopped; forgetting entries is unobservable |
| `Notify.dfy`, `NotifyLog.dfy`, `NotifyRates.dfy` | The notification dispatcher: queue, workers, channel snapshots, drop counters, shutdown | Every notify is accounted for once, under what was decided about it; a channel that stays loaded keeps its rate, over every interleaving |
| `Limiter.dfy`, `Pacer.dfy` | The sliding-window limiter and the token-bucket pacer | Exact against a limiter that never forgets; lossless and bounded pacing |
| `Framing.dfy`, `StreamSender.dfy` | Octet counting (section 3.4.1 of RFC 6587) and the reconnecting sender | Each receiver decodes exactly the messages acknowledged on its connection |
| `Netclass.dfy` | CIDR sets probed by binary search | Agrees with a linear scan exactly when no range is shadowed |
| `AuditLog.dfy` | The audit cursor and keyset paging | Cursors round-trip exactly for non-negative ids; sending them back as text lists every row once |
| `Common.dfy`, `Sorting.dfy` | Shared vocabulary, and a stable sort for the library sorts the program calls | |

How to read it. Code that decides is a function. Code that updates state is a class or a method with loops,
and its contract equates the new state with a specification function of the old one; the lemmas are about
those functions. Concurrent parts are steps, one per critical section or channel operation, and a run is any
sequence of enabled steps. The outside world (clock, network, database, child process, case folding, Unicode
tables, number and time parsing) enters as parameters that the theorems quantify over.

Where the code falls short of what its comments promise, the exact condition is proved:

* `last_seconds`: the comment on `Match` says it mirrors SQL, but SQL is strict at the edge instant and `Match`
  is not, and a window over 9223372036 seconds overflows a Go `Duration`. `WindowAgreesIffOffEdge` and
  `LongWindowAgreesIff` give both conditions; `EdgeRowDisagrees` and `LongWindowDisagrees` exhibit rows.
* `Stats.Failed` is documented as failed insert attempts, but source look-ups go through the same `retry` and count too.
  `FailedCountsInsertsIff` gives the condition, `LookupCountsAsFailed` a run.
* `Stats.Retrying` is documented as the batcher waiting out a database error, but every call of `retry` writes the one
  flag, and a backoff cut by the deadline leaves it raised. `FlagStaysTrueIff` says exactly which steps falsify it,
  `FlagWrongIff` exactly when it is wrong after a run; in `RecoveryHidesRetrying` a handler's recovery hides the
  batcher's outage.
* `Set.Contains` looks at one range only, so a prefix inside a larger one can hide it. `AgreesIffNoneShadowed`
  says exactly when; `NestingMisses` exhibits it.
* `ParseAuditCursor` does not invert `String` for negative ids (`CursorRoundTrip`); ids come from a sequence.
* The rate of a notification channel is kept by its limiter. `RatePerLimiter` bounds a channel by its rate times the
  limiters made for it, and `ReloadedChannelMultiplies` reaches that bound for every rate and number, so the rate is
  guaranteed exactly with a single limiter (`RateGuaranteedIff`). A channel gets a
  second limiter under the same id when reloads overlap: `Reload` reads the list before it takes the lock, so a list
  read before the channel was created can replace one read after, until the next reload brings the channel back.
* A local logout can be undone by a verify already in flight: `LogoutUndoneIff` says exactly when, `SurvivesIff` also
  for a token cached again before the revocation, `ForgetCanBeUndone` exhibits it. The 30 s bound still holds and is
  tight (`BoundIsTight`).
* Octet counting asks for a length that starts with a non-zero digit; `Frame` writes one exactly for non-empty
  messages (`LeadingDigitNonZero`).

## Model

| member | source | states |
|---|---|---|
| Validity.FieldsAreWhatEntriesHold | apps/syslog-bucket/internal/rules/cond.go:67-81 | the known fields, of each kind, are exactly those in which an entry can hold a value of that kind |
| Validity.LeafValidIff | apps/syslog-bucket/internal/rules/cond.go:121-151 | a leaf is valid exactly when its field holds something, the operator compares that, and the value reads as that |
| Validity.ValidIff | apps/syslog-bucket/internal/rules/cond.go:99-119 | a condition is valid exactly when every node of the tree sets at most one group, its leaf fits and its window is not negative |
| Validity.TextLeafMeans | apps/syslog-bucket/internal/rules/cond.go:350-378 | a text leaf asks for equal, different, contained or leading text, both sides folded |
| Validity.NumLeafMeans | apps/syslog-bucket/internal/rules/cond.go:380-395 | a numeric leaf compares as its operator says, with fractions and infinities; a NaN is only ever different |
| Validity.TimeLeafMeans | apps/syslog-bucket/internal/rules/cond.go:370-376 | a time leaf compares instants as its operator says |
| Like.PrefixExact | apps/syslog-bucket/internal/rules/cond.go:222-223 | matching the escaped text followed by `%` is exactly "starts with the text", and the pattern is well formed |
| Like.ContainsExact | apps/syslog-bucket/internal/rules/cond.go:220-221 | matching the escaped text between two `%` is exactly "contains the text", and the pattern is well formed |
| Like.EscapeFolds | apps/syslog-bucket/internal/rules/cond.go:284-287 | escaping commutes with any per-character folding that keeps the special characters |
| Like.FoldedPrefixExact | apps/syslog-bucket/internal/rules/cond.go:366-367 | under ILIKE the prefix pattern is exactly a prefix test on the folded strings |
| Like.FoldedContainsExact | apps/syslog-bucket/internal/rules/cond.go:364-365 | under ILIKE the contains pattern is exactly a substring test on the folded strings |
| ConditionSql.BindList.Arg | apps/syslog-bucket/internal/rules/cond.go:156-158 | a bind is appended and its placeholder names the new position |
| ConditionSql.NumLeaf | apps/syslog-bucket/internal/rules/cond.go:240-265 | the rounding and clamping steps produce the specified comparison and bind |
| ConditionSql.CompileLeaf | apps/syslog-bucket/internal/rules/cond.go:203-233 | a leaf appends its binds in order and yields the specified expression |
| ConditionSql.Compile | apps/syslog-bucket/internal/rules/cond.go:166-193 | the recursive compiler over one shared bind list computes the specified expression and binds |
| ConditionSql.CompileJoin | apps/syslog-bucket/internal/rules/cond.go:195-201 | the parts are compiled left to right into the same bind list |
| ConditionSql.CompileSql | apps/syslog-bucket/internal/rules/cond.go:159-164 | an invalid tree is refused, a valid one compiles from an empty bind list |
| ConditionSql.IntBoundExact | apps/syslog-bucket/internal/rules/cond.go:235-264 | comparing an integer with the rounded, clamped int64 bound is comparing it with the original float, infinities included |
| ConditionSql.NumLeafAgrees | apps/syslog-bucket/internal/rules/cond.go:369-371 | a numeric leaf is TRUE in SQL exactly when the matcher accepts it, NULL columns, NaN and fractions included |
| ConditionSql.StrLeafAgrees | apps/syslog-bucket/internal/rules/cond.go:356-368 | a text leaf is TRUE in SQL exactly when the matcher accepts it, NULL included, for all four operators |
| ConditionSql.LeafAgrees | apps/syslog-bucket/internal/rules/cond.go:350-378 | every valid leaf means the same in SQL and in memory |
| ConditionSql.AndAgrees | apps/syslog-bucket/internal/rules/cond.go:292-299 | a three-valued AND of parts that agree is TRUE exactly when all conditions match |
| ConditionSql.OrAgrees | apps/syslog-bucket/internal/rules/cond.go:300-306 | a three-valued OR of parts that agree is TRUE exactly when some condition matches |
| ConditionSql.WindowAgreesIffOffEdge | apps/syslog-bucket/internal/rules/cond.go:341-344 | for a window that fits a Duration the two sides agree if and only if the row is not exactly on the edge |
| ConditionSql.LongWindowAgreesIff | apps/syslog-bucket/internal/rules/cond.go:344 | for a longer window the two sides agree if and only if a row inside it is no older than the wrapped-around length, or a row outside it meets a wrapped length below the longest Duration |
| ConditionSql.EdgeRowDisagrees | apps/syslog-bucket/internal/rules/cond.go:189 | a one-minute window and a row exactly one minute old: the matcher takes it, SQL does not |
| ConditionSql.LongWindowDisagrees | apps/syslog-bucket/internal/rules/cond.go:344 | a window of 9223372037 s takes every past row in SQL and none in memory |
| ConditionSql.LaterBindsIrrelevant | apps/syslog-bucket/internal/rules/cond.go:156-158 | binds registered later never change what a compiled expression evaluates to |
| ConditionSql.CompileCorrect | apps/syslog-bucket/internal/rules/cond.go:289-348 | for every valid tree, row and instant clear of its windows (off the edge; for over-long windows as above), the compiled SQL runs without error under any extension of its binds and is TRUE exactly when Match holds |
| RuleEngine.LiveEntry.Act | apps/syslog-bucket/internal/engine/engine.go:103-123 | one action changes the entry in place as specified |
| RuleEngine.LiveEntry.Apply | apps/syslog-bucket/internal/engine/engine.go:94-129 | all matching rules act in order, then a suppressed entry loses its notifications |
| RuleEngine.AppendUniqueLoop | apps/syslog-bucket/internal/engine/engine.go:66-80 | the nested loops append exactly the codes not yet present, in order |
| RuleEngine.AppendUniqueElems | apps/syslog-bucket/internal/engine/engine.go:65-80 | the merged list holds the union of both lists |
| RuleEngine.History.ApplyRule | apps/syslog-bucket/internal/store/rules.go:234-324 | on success the statements have run over the matched rows and matched, affected and skipped are reported; on any error the table is untouched |
| RuleEngine.TableRunIsRowByRow | apps/syslog-bucket/internal/store/rules.go:265-312 | the statements run one after another over the table, on the ids matched beforehand, leave every row as its own condition and actions would |
| RuleEngine.StatementsAreRowByRow | apps/syslog-bucket/internal/store/rules.go:265-312 | folding the statements over a snapshotted selection is the per-row map, and the ids they report are exactly the rows some action changes |
| RuleEngine.WhereMeansChanged | apps/syslog-bucket/internal/store/rules.go:268-297 | a statement's WHERE clause lets through exactly the matched rows its SET changes, so RETURNING reports changed rows only |
| RuleEngine.ActionAgrees | apps/syslog-bucket/internal/store/rules.go:270-308 | each action's statement and the engine's action keep an entry and its row in the same state |
| RuleEngine.HistoryMatchesEngine | apps/syslog-bucket/internal/store/rules.go:228-233 | a row selected through SQL and rewritten ends with the same tags (existing ones), priority, suppression and codes as the engine, deciding with Match, would store |
| RuleEngine.SecondRunChangesNothing | apps/syslog-bucket/internal/store/rules.go:228-233 | at a fixed instant a second run of the same rule changes no row |
| RuleEngine.AffectedWithinMatched | apps/syslog-bucket/internal/store/rules.go:217-222 | affected never exceeds matched, no row appears or vanishes, and every changed row is counted |
| RuleEngine.SuppressBeatsNotify | apps/syslog-bucket/internal/engine/engine.go:89-93 | once suppressed an entry stays so and pages nobody, whatever rules follow |
| EngineEffect.AppendUniqueGains | apps/syslog-bucket/internal/engine/engine.go:65-80 | the codes there were stay in front and each missing code is added once |
| EngineEffect.EngineDoesWhatRulesAsk | apps/syslog-bucket/internal/engine/engine.go:82-129 | exactly the rules that match the entry as the earlier ones left it act: every notification they ask for is queued unless the entry ends up suppressed, each new tag is set once and credited to the first rule that set it, codes accumulate, the last priority wins, nothing else changes |
| Lexer.ScanToken | apps/syslog-bucket/internal/rules/textsearch.go:168-207 | the scanning loops find the specified token: chunk, URL without its scheme, or host with port and path |
| Lexer.LexemesOf | apps/syslog-bucket/internal/rules/textsearch.go:165-209 | the cursor loop terminates on every text and yields its lexemes in order |
| Lexer.LexemesNonEmpty | apps/syslog-bucket/internal/rules/textsearch.go:211-292 | no text ever yields an empty lexeme |
| Lexer.LexemesConcat | apps/syslog-bucket/internal/rules/textsearch.go:165-209 | the lexemes of two texts joined by a space are the lexemes of each, in order |
| Spelling.ChunkSpells | apps/syslog-bucket/internal/rules/textsearch.go:211-261 | the lexemes of a compound token, read in order, spell its letters exactly; a compound lexeme is followed by its own parts |
| Spelling.LexemesSpell | apps/syslog-bucket/internal/rules/textsearch.go:165-209 | the lexemes of any text spell the letters of what the scanner reads |
| Spelling.NothingLostOrInvented | apps/syslog-bucket/internal/rules/textsearch.go:163-165 | without a colon in the text, the lexemes spell exactly its token characters, in order |
| Spelling.HyphenatedPair | apps/syslog-bucket/internal/rules/textsearch.go:263-292 | two hyphenated words give the compound and both words, otherwise the pieces, a number keeping its sign |
| Shapes.PlainWord | apps/syslog-bucket/internal/rules/textsearch.go:211-261 | a chunk without marks is one lexeme, in lower case |
| Shapes.Dotted | apps/syslog-bucket/internal/rules/textsearch.go:251-256 | a dotted name or number is one lexeme |
| Shapes.SnakeCase | apps/syslog-bucket/internal/rules/textsearch.go:234-240 | pieces joined by underscores are one lexeme each, without the whole |
| Shapes.Hyphenated | apps/syslog-bucket/internal/rules/textsearch.go:263-292 | any number of hyphenated words give the compound and each word; otherwise the pieces stand alone, numbers behind a hyphen signed |
| Shapes.MailAddress | apps/syslog-bucket/internal/rules/textsearch.go:241-250 | user at a host name is one lexeme; at anything else the two sides are read apart |
| Shapes.AbsolutePath | apps/syslog-bucket/internal/rules/textsearch.go:219-222 | an absolute path is one lexeme |
| Shapes.PathBehind | apps/syslog-bucket/internal/rules/textsearch.go:223-231 | a URL gives itself, its host and its path; a number in front of a slash parts from the path; a relative path is one lexeme |
| Shapes.VersionSuffix | apps/syslog-bucket/internal/rules/textsearch.go:252-254 | a version number parts from what its first hyphen adds |
| Shapes.SchemeIsDropped | apps/syslog-bucket/internal/rules/textsearch.go:178-188 | the scheme of a URL yields nothing and the rest is read as a chunk |
| Shapes.PortStaysOn | apps/syslog-bucket/internal/rules/textsearch.go:189-203 | a host keeps its port |
| Shapes.HostNamesAre | apps/syslog-bucket/internal/rules/textsearch.go:305-330 | host names are two or more non-empty labels of letters, digits and hyphens, the last of two letters or more |
| Websearch.SplitItems | apps/syslog-bucket/internal/rules/textsearch.go:72-101 | any query is consumed to its end into words, phrases and minus signs; which, `Queries.SplittingUndoesSpelling` says |
| Websearch.GroupOperands | apps/syslog-bucket/internal/rules/textsearch.go:120-138 | the loop computes the specified OR-groups |
| Websearch.ParseWebsearch | apps/syslog-bucket/internal/rules/textsearch.go:66-139 | parsing is splitting, dropping operands without lexemes, then grouping |
| Websearch.ContainsSeq | apps/syslog-bucket/internal/rules/textsearch.go:141-155 | the search answers whether the lexemes occur side by side |
| Websearch.TextMatches | apps/syslog-bucket/internal/rules/textsearch.go:26-45 | answers whether some group has every term present or, if negated, absent; for written queries `Queries.MatchesAsWritten` says what that asks |
| Websearch.OperandsBecomeTermsOrOperators | apps/syslog-bucket/internal/rules/textsearch.go:103-138 | each operand becomes exactly one term, in order, or one operator; groups number operators plus one and none is empty |
| Websearch.OperatorsStandBetweenTerms | apps/syslog-bucket/internal/rules/textsearch.go:124-131 | an operator always has a term on either side |
| Websearch.QuotedMatchesPhrase | apps/syslog-bucket/internal/rules/textsearch.go:79-88 | a quoted text matches exactly the messages in which its lexemes appear side by side |
| Websearch.NegatedQuoteIsComplement | apps/syslog-bucket/internal/rules/textsearch.go:89-91 | a leading minus turns a quoted text into its complement |
| Websearch.MessageMatchesItself | apps/syslog-bucket/internal/rules/textsearch.go:26-45 | a quote-free message with lexemes matches its own quoted text, also inside a longer message |
| Queries.SplittingUndoesSpelling | apps/syslog-bucket/internal/rules/textsearch.go:72-101 | however words, quoted texts and minus signs are set apart, splitting gives back exactly those items, each with its number of minus signs |
| Queries.ParsingUndoesWriting | apps/syslog-bucket/internal/rules/textsearch.go:66-139 | a query written from OR-groups parses into exactly those groups, items without lexemes left out |
| Queries.MatchesAsWritten | apps/syslog-bucket/internal/rules/textsearch.go:26-45 | a message matches a query exactly when it satisfies every item of some group, for any groups of bare and quoted, plain and negated items |
| Queries.BareWord | apps/syslog-bucket/internal/rules/textsearch.go:95-115 | a bare word asks for its lexemes side by side, and with a minus sign in front for the opposite |
| Queries.TwoWords | apps/syslog-bucket/internal/rules/textsearch.go:115 | two words, each negated or not, ask for both |
| Queries.EitherWord | apps/syslog-bucket/internal/rules/textsearch.go:124-134 | two words, each negated or not, with an or between ask for either |
| Queries.OrIsAnOrWord | apps/syslog-bucket/internal/rules/textsearch.go:116 | the text "or" is such an operator in any alphabet that has its letters |
| FlowGraph.FindsIt | apps/syslog-valve/internal/graph/graph.go:95-102 | with unique ids, lookup finds the node itself |
| FlowGraph.CollectEdgesFrom | apps/syslog-valve/internal/graph/graph.go:125-133 | the loop collects a node's outgoing edges in order |
| FlowGraph.BuildEnabled | apps/syslog-valve/internal/graph/graph.go:107-123 | the loops build the enabled subgraph, whose nodes and edges `FlowGraph.EnabledIsExact` pins down |
| FlowGraph.Visit | apps/syslog-valve/internal/graph/graph.go:262-275 | the recursive visit terminates, leaves the stack as it found it, and answers as specified |
| FlowGraph.VisitFindsCycles | apps/syslog-valve/internal/graph/graph.go:262-275 | the depth-first visit fails exactly when some walk from the node runs into a cycle |
| FlowGraph.CheckCycles | apps/syslog-valve/internal/graph/graph.go:261-284 | accepts exactly the graphs in which no source can reach a cycle |
| FlowGraph.AheadShrinks | apps/syslog-valve/internal/codegen/codegen.go:273-275 | along every edge of an acyclic region strictly fewer nodes lie ahead, which is why the path walk terminates |
| FlowGraph.EnabledIsSound | apps/syslog-valve/internal/graph/graph.go:104-106 | the enabled subgraph keeps valid edges, unique ids and acyclicity |
| FlowGraph.EnabledIsExact | apps/syslog-valve/internal/graph/graph.go:104-123 | the enabled subgraph holds exactly the nodes not switched off and the edges touching none that is, as often as the graph and in its order |
| FlowPaths.Walk | apps/syslog-valve/internal/codegen/codegen.go:279-293 | the recursive walk appends exactly the complete paths that continue from a node |
| FlowPaths.FlowPathsOf | apps/syslog-valve/internal/codegen/codegen.go:276-306 | all paths from all sources, none lost or duplicated, ordered by source then sink |
| FlowPaths.WalkCounts | apps/syslog-valve/internal/codegen/codegen.go:279-293 | below a node, for steps the message passes, paths that hold number the token copies that arrive |
| FlowPaths.RoutingPreserved | apps/syslog-valve/internal/codegen/codegen.go:276-306 | for every graph that passes validation, message, source and sink, the flat paths that hold number exactly the copies of a token walking match and else edges |
| FlowPaths.ArrivesIffRoute | apps/syslog-valve/internal/codegen/codegen.go:273-275 | a message arrives at a sink exactly when a route of followed edges leads there |
| ConfigGen.IdentIsStable | apps/syslog-valve/internal/graph/graph.go:316-321 | an identifier holds only safe characters and compiling it again changes nothing |
| ConfigGen.IdentKeepsLetters | apps/syslog-valve/internal/graph/graph.go:318-321 | an identifier keeps every letter and digit of its id, lower-cased and in order, and an id of safe characters as it is |
| ConfigGen.IdentOfRun | apps/syslog-valve/internal/graph/graph.go:316-321 | a run of unsafe characters becomes one underscore, a safe character stands for itself |
| ConfigGen.CheckIdents | apps/syslog-valve/internal/graph/safety.go:112-136 | accepts exactly when identifiers are distinct and none equals a tap or else name derived from another node |
| ConfigGen.ValidateEdge | apps/syslog-valve/internal/graph/graph.go:238-259 | accepts exactly the edges from a source without a port or a filter with a match or else port, to a filter or a sink, between existing nodes |
| ConfigGen.Validate | apps/syslog-valve/internal/graph/graph.go:138-168 | accepts exactly the graphs with unique ids, free identifiers, fitting edges and no cycle behind a source, given the per-node and listener checks |
| ConfigGen.Declarations | apps/syslog-valve/internal/codegen/codegen.go:62-130 | the loop emits one source, filter (plus else companion where needed) or destination per node |
| ConfigGen.LogBlocks | apps/syslog-valve/internal/codegen/codegen.go:136-147 | one log block per path, its filters named with or without the else suffix |
| ConfigGen.Taps | apps/syslog-valve/internal/codegen/codegen.go:149-162 | one tap destination and one tap log block per source |
| ConfigGen.Generate | apps/syslog-valve/internal/codegen/codegen.go:52-164 | an invalid graph is refused; a valid one yields the configuration of its enabled subgraph, whose routing `EnabledRouting.ConfigRoutesLive` states on the graph itself |
| ConfigRouting.DestinationsDistinct | apps/syslog-valve/internal/graph/safety.go:109-111 | no two destinations share a name, taps included |
| ConfigRouting.FiltersDistinct | apps/syslog-valve/internal/graph/safety.go:109-111 | no two filters share a name, else companions included |
| ConfigRouting.NamesResolve | apps/syslog-valve/internal/codegen/codegen.go:124-128 | looked up by name, a filter accepts what its node accepts and its else companion exactly the rest |
| ConfigRouting.ConfigRoutesLikeGraph | apps/syslog-valve/internal/codegen/codegen.go:132-147 | log blocks that deliver from a source to a sink, all names resolved, number the token copies that arrive there in the graph |
| EnabledRouting.ConfigRoutesLive | apps/syslog-valve/internal/codegen/codegen.go:52-164 | for every valid graph, log blocks that deliver from a source that is on to any sink number the copies of a token walking the graph without ever entering a node that is switched off |
| EnabledRouting.OffGetsNothing | apps/syslog-valve/internal/graph/graph.go:104-106 | a sink that is switched off is not declared and gets nothing |
| ConfigRouting.TapSeesEverything | apps/syslog-valve/internal/codegen/codegen.go:149-162 | every enabled source feeds its tap exactly once, whatever the filters say |
| ConfigRouting.EverythingDeclaredOnce | apps/syslog-valve/internal/codegen/codegen.go:62-163 | every source, filter and destination a log block names is declared, and no name of a source, filter or destination twice |
| Ingest.Server.FailTry | apps/syslog-bucket/internal/ingest/ingest.go:375-384 | a failed try is counted, and waits with the flag raised unless cancelled or permanent |
| Ingest.Server.LookupError | apps/syslog-bucket/internal/ingest/ingest.go:340-362 | a failed source look-up is counted as failed; the handler waits, or gives the record up as bad |
| Ingest.Server.LookupSuccess | apps/syslog-bucket/internal/ingest/ingest.go:364-374 | the record goes on to the queue, and a recovery clears the shared flag |
| Ingest.Server.SendEntry | apps/syslog-bucket/internal/ingest/ingest.go:261-265 | a handler's entry joins the queue; a send on the closed queue would panic |
| Ingest.Server.TakeEntry | apps/syslog-bucket/internal/ingest/ingest.go:411-419 | the batcher takes the oldest entry and flushes a full batch |
| Ingest.Server.FlushTimer | apps/syslog-bucket/internal/ingest/ingest.go:420-421 | on the timer what is in hand is flushed, however little; nothing otherwise |
| Ingest.Server.SeeQueueClosed | apps/syslog-bucket/internal/ingest/ingest.go:412-415 | on the closed, empty queue the batcher flushes what it holds and exits |
| Ingest.Server.BatchInserted | apps/syslog-bucket/internal/store/store.go:262-328 | a committed batch keeps its order, and its ids are the drawn ones, strictly increasing, whatever order they were drawn in |
| Ingest.IdsAscend | apps/syslog-bucket/internal/store/store.go:284-285 | sorting distinct new ids assigns them strictly increasing: a permutation of the draw, all above what came before |
| Ingest.Server.BatchError | apps/syslog-bucket/internal/ingest/ingest.go:375-391 | a transient error waits and retries; otherwise, or once cancelled, the batch is given up |
| Ingest.Server.AfterBatchError | apps/syslog-bucket/internal/ingest/ingest.go:434-442 | past the deadline the batch is counted as dropped; otherwise rows are tried one by one |
| Ingest.Server.RowInserted | apps/syslog-bucket/internal/ingest/ingest.go:455-466 | a row committed on its own joins the stored rows |
| Ingest.Server.RowError | apps/syslog-bucket/internal/ingest/ingest.go:459-463 | a refused row is dropped alone; a transient error waits |
| Ingest.Server.EndBackoff | apps/syslog-bucket/internal/ingest/ingest.go:385-391 | the retry timer resumes the attempt, the cancelled context ends it |
| Ingest.Server.PublishStored | apps/syslog-bucket/internal/ingest/ingest.go:443-452 | what was stored is counted and broadcast, nothing else |
| Ingest.Server.CloseTheQueue | apps/syslog-bucket/internal/ingest/ingest.go:216-224 | the queue is closed once every handler has returned |
| Ingest.StepKeepsInv | apps/syslog-bucket/internal/ingest/ingest.go:171-271 | every step of every goroutine keeps the accounting and the shutdown order |
| Ingest.NothingLeaks | apps/syslog-bucket/internal/ingest/ingest.go:5-10 | over every interleaving nothing is sent on the closed queue and accepted = queued + held + stored but unpublished + inserted + dropped |
| Ingest.BroadcastIsCommittedInOrder | apps/syslog-bucket/internal/ingest/ingest.go:426-430 | only committed entries are broadcast, in arrival order, with strictly increasing ids, from draws in any order |
| Ingest.ServeReturnsClean | apps/syslog-bucket/internal/ingest/ingest.go:157-161 | when serve returns every accepted entry was inserted and broadcast, or counted as dropped |
| Ingest.LostOnlyIfRejected | apps/syslog-bucket/internal/ingest/ingest.go:428-429 | before the drain deadline every entry lost is one the database refused for good, as the failing insert reported it |
| Ingest.CountersMatchRun | apps/syslog-bucket/internal/ingest/ingest.go:375 | `failed` counts failed inserts and failed source look-ups; `badRecords` the records given up; entries lost as rejected number the rows refused for good, and until the deadline nothing else is dropped |
| Ingest.FailedCountsInsertsIff | apps/syslog-bucket/internal/ingest/ingest.go:95 | `failed` is the number of failed insert attempts if and only if no source look-up failed |
| Ingest.LookupCountsAsFailed | apps/syslog-bucket/internal/ingest/ingest.go:340-356 | a look-up that fails once and then succeeds counts one failure without any insert having failed |
| Ingest.FlagStaysTrueIff | apps/syslog-bucket/internal/ingest/ingest.go:98 | a step keeps "retrying = the batcher is retrying" if and only if it is not a look-up outcome at odds with the batcher, nor the deadline cutting the batcher's backoff |
| Ingest.FlagIsTrueOverRuns | apps/syslog-bucket/internal/ingest/ingest.go:364-394 | over runs without such steps the flag is exact |
| Ingest.FlagWrongIff | apps/syslog-bucket/internal/ingest/ingest.go:364-394 | at the end of a run the flag is wrong if and only if the last step that decided its truth was a look-up outcome at odds with the batcher, or a cut backoff that left it raised |
| Ingest.RecoveryHidesRetrying | apps/syslog-bucket/internal/ingest/ingest.go:368-373 | a handler's recovery clears the flag while the batcher still waits |
| Ingest.SenderNeverStuck | apps/syslog-bucket/internal/ingest/ingest.go:261-264 | from any state in which a handler holds an entry, steps of the batcher alone lead to one in which it can send |
| Ingest.EverythingQueuedIsInserted | apps/syslog-bucket/internal/ingest/ingest.go:395-424 | before the deadline, from any reachable state, steps of the batcher alone that lose nothing lead to where every accepted entry not dropped before is inserted and broadcast, a part-full batch included |
| Ingest.AcceptedIsWhatWasRead | apps/syslog-bucket/internal/ingest/ingest.go:248-264 | what is accepted is, in order, what the connections read: each send queues the entry its connection read last |
| JobLifecycle.JobRecord.Start | apps/syslog-hose/internal/engine/job.go:183-216 | only an idle, undeleted job with a known preset starts, copying its config and resetting its counter |
| JobLifecycle.JobRecord.Finish | apps/syslog-hose/internal/engine/job.go:251-260 | the job returns to idle and its context is cancelled |
| JobLifecycle.JobRecord.Halt | apps/syslog-hose/internal/engine/job.go:264-273 | a busy job is cancelled and its done channel is the one to wait for; an idle job is left alone |
| JobLifecycle.JobRecord.SetConfig | apps/syslog-hose/internal/engine/job.go:165-173 | the config changes exactly when the job is idle |
| JobLifecycle.StartsUnlessMarked | apps/syslog-hose/internal/engine/job.go:183-216 | after any trace a start with a known preset makes a run with the job's config exactly if the job is idle and not marked for deletion, and otherwise changes nothing |
| JobLifecycle.StepKeepsInv | apps/syslog-hose/internal/engine/job.go:107-115 | every step keeps ownership, single closing, the event limit and what halts were told |
| JobLifecycle.OneRunWithTheJobsConfig | apps/syslog-hose/internal/engine/job.go:107-115 | at most one run owns the job, and its config copy equals the job's config |
| JobLifecycle.StatusIsTrue | apps/syslog-hose/internal/engine/job.go:107-115 | idle, running and stopping say exactly: no run, a live run, a cancelled run |
| JobLifecycle.DoneClosedOnce | apps/syslog-hose/internal/engine/job.go:248-260 | no done channel is closed twice, and a finished run has closed its own |
| JobLifecycle.NeverOverLimit | apps/syslog-hose/internal/engine/job.go:345-347 | the counter never exceeds the positive limit of the run that owns it; that it counts exactly the events sent is `SendsAtMostLimit` |
| JobLifecycle.SendsAtMostLimit | apps/syslog-hose/internal/engine/job.go:327-347 | over every trace a run sends at most its positive limit of events, and while it owns the job the counter is the number of events it sent |
| JobLifecycle.LeavesForAReason | apps/syslog-hose/internal/engine/job.go:289-347 | a run leaves only if it could not dial, was cancelled, its time or context ended, or it has sent its whole limit |
| JobLifecycle.NoRunAfterDelete | apps/syslog-hose/internal/engine/manager.go:187-204 | after Delete's halt returned nil no run is active then or ever after, and none can start |
| JobLifecycle.HaltMeansGone | apps/syslog-hose/internal/engine/job.go:262-283 | a halt that waited and returned nil outlived the run it stopped |
| Supervisor.Monitor.LogLine | apps/syslog-valve/internal/supervisor/supervisor.go:249-283 | a log line marks, decides or leaves the pending reload as specified |
| Supervisor.Monitor.FinishReload | apps/syslog-valve/internal/supervisor/supervisor.go:285-293 | the wait is detached and told whether it failed, with the collected errors |
| Supervisor.Monitor.ChildExit | apps/syslog-valve/internal/supervisor/supervisor.go:156-166 | a child that exits fails the pending reload, if any |
| Supervisor.Monitor.BeginReload | apps/syslog-valve/internal/supervisor/supervisor.go:473-491 | a wait is installed only with a running child, no other reload and a delivered signal |
| Supervisor.Monitor.StopListening | apps/syslog-valve/internal/supervisor/supervisor.go:498-503 | a timed-out wait is detached only if it is still the pending one |
| Supervisor.StepKeepsInv | apps/syslog-valve/internal/supervisor/supervisor.go:338-388 | every step keeps single verdicts and the files consistent |
| Supervisor.AtMostOneVerdict | apps/syslog-valve/internal/supervisor/supervisor.go:285-293 | each reload wait gets at most one verdict, so the send under the mutex never blocks |
| Supervisor.VerdictIsRight | apps/syslog-valve/internal/supervisor/supervisor.go:249-293 | the first settling line, child exit or timer decides a reload; a line settles it as refused, with the first eight error lines, exactly when a failure was logged since it began |
| Supervisor.ReloadReturnsVerdict | apps/syslog-valve/internal/supervisor/supervisor.go:495-511 | Reload returns nil exactly when told "loaded", and "not confirmed" exactly when no verdict came |
| Supervisor.ReloadSaysWhy | apps/syslog-valve/internal/supervisor/supervisor.go:473-512 | Reload fails at once, and says which, without a child, with another reload pending or an undelivered signal; otherwise it returns nil, the refusal with its errors, "exited during reload" or "not confirmed" exactly as its own wait was told |
| Supervisor.InstalledIsNewest | apps/syslog-valve/internal/supervisor/supervisor.go:412-432 | between applies the installed config is the newest archived one or the initial one, and ActiveGraph is that entry's graph |
| Supervisor.ApplyIsAllOrNothing | apps/syslog-valve/internal/supervisor/supervisor.go:331-372 | whatever is interleaved, by the answer its Reload gave: config and history are as found, or the new config is installed and archived last |
| Supervisor.ApplyOutcome | apps/syslog-valve/internal/supervisor/supervisor.go:331-388 | the new config stays installed and is archived, of at most twenty, exactly when no child was running as its Reload was called, or that reload started and its own wait was told "loaded"; in every other case, child gone included, all is as found |
| Supervisor.ActiveGraphIs | apps/syslog-valve/internal/supervisor/supervisor.go:412-432 | the active graph is that of the newest archived entry with the installed config, if there is one |
| Yardauth.Guard.Lookup | apps/shared/yardauth/yardauth.go:185-192 | a cached user is answered only before the entry expires |
| Yardauth.Guard.Remember | apps/shared/yardauth/yardauth.go:216-223 | expired entries go, the answer expires 30 s after the verify began |
| Yardauth.NoUserAfterTtl | apps/shared/yardauth/yardauth.go:182-225 | no verify begun 30 s or more after revocation returns a user, and any user returned owns the token |
| Yardauth.OnlyTheRevokedAreTurnedAway | apps/shared/yardauth/yardauth.go:182-225 | over every interleaving a verify ends without a user only if its request failed, the token is nobody's, or it has been revoked |
| Yardauth.SurvivesIff | apps/shared/yardauth/yardauth.go:182-225 | a revoked token can still be answered with a user to a later verify if and only if a live cache entry holds it or a verify approved before, still within its 30 s, has yet to cache it |
| Yardauth.LogoutUndoneIff | apps/shared/yardauth/yardauth.go:308-318 | a completed logout (forgotten locally, revoked upstream) takes effect at once if and only if no such verify is in flight |
| Yardauth.ForgetCanBeUndone | apps/shared/yardauth/yardauth.go:308-311 | a verify in flight across a logout and revocation re-caches the token, and a later verify is answered |
| Yardauth.BoundIsTight | apps/shared/yardauth/yardauth.go:223 | a verify begun one nanosecond before the bound still returns the user |
| Throttle.Counter.Gc | apps/syslog-bucket/internal/auth/throttle.go:91-97 | exactly the entries idle past a window and past their lockout are dropped |
| Throttle.Counter.Allow | apps/syslog-bucket/internal/auth/throttle.go:46-59 | an attempt is refused exactly while a lockout runs, with the time left |
| Throttle.Counter.Fail | apps/syslog-bucket/internal/auth/throttle.go:62-82 | a failure counts in its window and arms the lockout at the maximum, as `LockoutFires` states over runs |
| Throttle.CollectionUnobservable | apps/syslog-bucket/internal/auth/throttle.go:90-97 | under a monotone clock a table that forgets answers every sequence of operations like one that never does, in both modes |
| Throttle.LockoutFires | apps/syslog-bucket/internal/auth/throttle.go:61-82 | in both modes, when the maximum-th failure of a key falls into the window its first one opened, with no reset between, the key is locked until a window after it, whatever other keys do |
| Throttle.LockHolds | apps/syslog-bucket/internal/auth/throttle.go:46-59 | until then every question about the key, in any run without its reset, is refused with the time that remains |
| Throttle.FailuresLock | apps/syslog-bucket/internal/auth/throttle.go:46-82 | both together: from failures in one window to every later answer |
| Throttle.Guard.Allow | apps/syslog-bucket/internal/auth/throttle.go:125-130 | the account is asked first, the source only if the account allows |
| Throttle.Guard.Fail | apps/syslog-bucket/internal/auth/throttle.go:132-135 | a failure counts against the source and the account |
| Throttle.Guard.Succeed | apps/syslog-bucket/internal/auth/throttle.go:139-142 | a success clears both counters and nothing else |
| Throttle.SourceKeyInjective | apps/syslog-bucket/internal/auth/throttle.go:122 | different (account, address) pairs have different keys as long as addresses hold no NUL |
| Throttle.WindowHolds | apps/syslog-bucket/internal/auth/throttle.go:105-106 | failures spread by the source lockout put at most 41 into an account window, at most 40 when both clocks read the same |
| Throttle.ElevenFailuresSpanAWindow | apps/syslog-bucket/internal/auth/auth.go:37-43 | any eleven consecutive failures from one source span at least five minutes |
| Throttle.SingleSourceNeverLocksAccount | apps/syslog-bucket/internal/auth/throttle.go:99-106 | over all runs, successes and other accounts' traffic included, one source never locks an account for everyone |
| Throttle.BruteForceIsStopped | apps/syslog-bucket/internal/auth/throttle.go:103-106 | the hundredth failure of an account within fifteen minutes of the one that opened its window, from any sources, refuses every source for fifteen minutes |
| Notify.Dispatcher.OfferJob | apps/syslog-bucket/internal/notify/notify.go:170-180 | a notify is queued, or refused when the queue is full or closed |
| Notify.Dispatcher.ReloadChannels | apps/syslog-bucket/internal/notify/notify.go:97-122 | the new snapshot is in place, new channels have fresh limiters, deleted ones none, the others keep theirs |
| Notify.Dispatcher.LookUp | apps/syslog-bucket/internal/notify/notify.go:266-295 | a worker goes on with the channel's limiter, or skips a missing or disabled channel |
| Notify.Dispatcher.MakeLimiter | apps/syslog-bucket/internal/notify/notify.go:274-284 | the fallback re-checks under the lock and shares one limiter |
| Notify.Dispatcher.TakeDrops | apps/syslog-bucket/internal/notify/notify.go:192-196 | a flush takes all counted drops and leaves none |
| Notify.EveryNotifyOnce | apps/syslog-bucket/internal/notify/notify.go:158-230 | over every interleaving each notify is, exactly once, about to be refused, queued, with a worker, counted or written as dropped, logged, or skipped |
| NotifyLog.LogTellsWhatHappened | apps/syslog-bucket/internal/notify/notify.go:287-309 | over every interleaving and for each key, what is booked is what was decided: ok where delivery succeeded, error where it failed, rate limited where the limiter said no, skipped where the channel was gone or disabled, a drop where the queue was full, closed or abandoned |
| Notify.ShutdownLosesNothing | apps/syslog-bucket/internal/notify/notify.go:228-231 | once all workers have left, nothing is queued or in hand; only after the deadline does a worker drop a job |
| NotifyRates.NeverCreates | apps/syslog-bucket/internal/notify/notify.go:263-265 | over every run each loaded channel has its limiter, so the fallback is never reached |
| NotifyRates.RatePerLimiter | apps/syslog-bucket/internal/notify/notify.go:109-120 | in no minute, over every interleaving, do more deliveries pass than the channel's highest rate times its limiters |
| NotifyRates.RateHeldWhileLoaded | apps/syslog-bucket/internal/notify/notify.go:263-265 | a channel present in every snapshot since its first keeps its highest rate in every minute |
| NotifyRates.ReloadedChannelMultiplies | apps/syslog-bucket/internal/notify/notify.go:116-120 | the bound is reached for every rate and every number of limiters: rate times m deliveries pass at one instant |
| NotifyRates.RateGuaranteedIff | apps/syslog-bucket/internal/notify/limiter.go:8-9 | over all runs that make m limiters for a channel its rate is kept in every minute if and only if m is at most one |
| Limiter.Window.Allow | apps/syslog-bucket/internal/notify/limiter.go:17-35 | the trimming loop and the count decide as specified |
| Limiter.AllowIsExact | apps/syslog-valve/internal/notify/limiter.go:8-10 | a delivery is allowed exactly when fewer than the rate fell in the trailing minute of the full record |
| Limiter.BoundedAlways | apps/syslog-bucket/internal/notify/limiter.go:8-9 | a record that keeps to the rate at every delivery keeps to it in the minute before any instant |
| Limiter.AtMostRatePerMinute | apps/syslog-bucket/internal/notify/limiter.go:8-9 | over any run no minute, whenever it ends, holds more deliveries than the highest rate asked |
| Pacer.TokenBucket.Take | apps/syslog-hose/internal/engine/job.go:372-385 | refill, cap and removal of whole events happen as specified |
| Pacer.SteadyShape | apps/syslog-hose/internal/engine/job.go:417-428 | a steady job runs at its configured rate, clamped to standstill and the ceiling |
| Pacer.BurstShape | apps/syslog-hose/internal/engine/job.go:417-428 | a burst raises the rate only in its slot and never past the ceiling |
| Pacer.BurstsKeepTheirShare | apps/syslog-hose/internal/engine/job.go:397-425 | however a burst job is configured, of any burstEvery seconds in a row exactly burstLen, at most all, run above the base rate |
| Pacer.JitterShape | apps/syslog-hose/internal/engine/job.go:419-427 | jitter stays within its percentage on either side and reaches both ends |
| Pacer.TakeAccounts | apps/syslog-hose/internal/engine/job.go:370-385 | one take leaves a fraction of an event, emits no backlog, and loses nothing within two ticks |
| Pacer.FractionLeft | apps/syslog-hose/internal/engine/job.go:356-364 | tokens are in [0,1) after every take of a run |
| Pacer.NeverOverRate | apps/syslog-hose/internal/engine/job.go:356-360 | total events are at most 1 + the sum of rate times elapsed, at most 1 + 50000 per second |
| Pacer.PromptIsExact | apps/syslog-hose/internal/engine/job.go:356-360 | when every gap is at most two ticks the total is exactly the floor of 1 + the sum |
| Pacer.StallIsNotMadeUp | apps/syslog-hose/internal/engine/job.go:358-360 | after a one-second stall at 100 events/s, 11 of the 101 events due go out |
| Framing.DecodesFrame | apps/syslog-hose/internal/engine/sender.go:142-143 | a frame is recognised whatever follows it |
| Framing.CutFrameIncomplete | apps/syslog-hose/internal/engine/sender.go:142-143 | a frame cut off anywhere is neither a message nor an error |
| Framing.StreamDecodes | apps/syslog-hose/internal/engine/sender.go:63-64 | frames one after another and a cut-off last one decode to exactly their messages |
| Framing.LeadingDigitNonZero | apps/syslog-hose/internal/engine/sender.go:142-143 | the length starts with a non-zero digit exactly for non-empty messages |
| StreamSender.Stream.Send | apps/syslog-hose/internal/engine/sender.go:145-185 | hang-up check, backoff check, dial, write and one resend leave the specified state and result |
| StreamSender.SendOkIff | apps/syslog-hose/internal/engine/sender.go:145-185 | Send returns nil exactly when a connection is open or may be dialled and is, and the frame goes out on it or, unless stopped, on the one dialled in its place; then failures start over and the connection is kept |
| StreamSender.Stream.Transmit | apps/syslog-hose/internal/engine/sender.go:164-184 | a broken write is retried once on a fresh connection, then backed off |
| StreamSender.Stream.Backoff | apps/syslog-hose/internal/engine/sender.go:119-130 | the capped shift computes the capped doubling |
| StreamSender.DelaysAre | apps/syslog-hose/internal/engine/sender.go:116-124 | the delays are 250, 500, 1000, 2000, 4000 and then always 5000 ms |
| StreamSender.BackoffBounded | apps/syslog-hose/internal/engine/sender.go:116-129 | a backoff lasts between 125 ms and 5 s |
| StreamSender.FailsFast | apps/syslog-hose/internal/engine/sender.go:155-158 | during a backoff Send fails at once and changes nothing |
| StreamSender.FailureBacksOff | apps/syslog-hose/internal/engine/sender.go:155-184 | a Send that tried and failed leaves no connection and the next longer backoff |
| StreamSender.FailuresInARowBackOff | apps/syslog-hose/internal/engine/sender.go:116-130 | n failures in a row, however they fail, end in a backoff of at least half of 250 ms doubled n - 1 times and capped |
| StreamSender.WrittenMeansUsed | apps/syslog-hose/internal/engine/sender.go:147-153 | a connection counts as written exactly when a message was acknowledged on it |
| StreamSender.SendKeeps | apps/syslog-hose/internal/engine/sender.go:145-185 | each Send keeps every connection a run of whole acknowledged frames plus at most one cut-off frame |
| StreamSender.ReceiversDecodeTheAcks | apps/syslog-hose/internal/engine/sender.go:63-71 | over any run with failing dials and writes each connection decodes to exactly the messages acknowledged on it, in order |
| StreamSender.AcksAreConfirmed | apps/syslog-hose/internal/engine/sender.go:145-185 | the acknowledgements are the sends that returned nil, each once, on one connection, in order |
| Netclass.LastAddr | apps/syslog-bucket/internal/netclass/netclass.go:181-195 | setting every host bit in place gives the last address of the prefix, for both families |
| Netclass.RangeIsPrefix | apps/syslog-bucket/internal/netclass/netclass.go:180-195 | a prefix holds exactly the addresses from its first to its last |
| Netclass.AddrSet.constructor | apps/syslog-bucket/internal/netclass/netclass.go:154-161 | the ranges of all prefixes, none lost, ordered by start |
| Netclass.AddrSet.Contains | apps/syslog-bucket/internal/netclass/netclass.go:166-178 | the binary search finds the rightmost range starting at or before the address and answers whether it reaches it |
| Netclass.ContainsSound | apps/syslog-bucket/internal/netclass/netclass.go:165 | a hit is always real, whatever the prefixes |
| Netclass.AgreesIffNoneShadowed | apps/syslog-bucket/internal/netclass/netclass.go:177 | the search agrees with a linear scan on every address if and only if no range is shadowed by a later one that ends earlier |
| Netclass.AgreesWithoutNesting | apps/syslog-bucket/internal/netclass/netclass.go:165-178 | with no prefix strictly inside another the search is a linear scan |
| Netclass.OutlastsMeansInside | apps/syslog-bucket/internal/netclass/netclass.go:156-158 | CIDR blocks are nested or disjoint: one that starts later and ends earlier is strictly inside |
| Netclass.NestingMisses | apps/syslog-bucket/internal/netclass/netclass.go:177 | with ::/0 and 4000::/2 the last address is held and the search misses it |
| AuditLog.CursorRoundTrip | apps/syslog-bucket/internal/store/audit.go:62-81 | decoding an encoded cursor gives it back exactly when the id is not negative, and is an error otherwise |
| AuditLog.PageContinues | apps/syslog-bucket/internal/store/audit.go:102-176 | a page starts right behind the last row read, and the next cursor is absent only at the end |
| AuditLog.PageIsAsLongAsAsked | apps/syslog-bucket/internal/store/audit.go:138-175 | a page has as many rows as asked, at most 500, 100 if none was asked, or all that are left; the next cursor comes exactly with a full page |
| AuditLog.TextAnswers | apps/syslog-bucket/internal/store/audit.go:60-82 | a request with the text of a cursor is answered like one with the cursor itself |
| AuditLog.ReadAll | apps/syslog-bucket/internal/store/audit.go:102-176 | a client that sends back each cursor it is given, as text, reads every row exactly once, newest first, without an error, for any limit |

## Left out

- ConditionSql.CompileCorrect: assumes stored integers within 2^53 (the matcher goes through float64) and rows off the edge of every `last_seconds` window; float rounding of an integer JSON value, sub-microsecond instants and Postgres interval range errors are not modelled.
- Condition.World: case folding is per character and keeps `\`, `%` and `_`; number and time parsing and the full-text match are functions shared by both sides. Parity of the in-memory lexer with Postgres is not claimed, as its own header says it is an approximation.
- Condition.Entry: a structured value carries its rendered text, so `structuredText` against the `->>` operator on numbers is not compared.
- RuleEngine.HistoryMatchesEngine: notifications never run over history and are left out of the comparison; the order `SELECT DISTINCT` returns is not modelled, only the elements are compared.
- RuleEngine.History.ApplyRule: a failing statement is one parameter; the temporary tables are sets, and a skipped type is reported as the action that was skipped.
- FlowGraph.CheckCycles: a cycle no source can reach is accepted, as in the program; node settings, listeners and text limits of `Validate` only refuse more graphs and are not modelled.
- ConfigGen.Generate: configuration text is a structure of names; driver options, quoting, comments, cache paths and logrotate are not modelled, and a filter's own conditions are an arbitrary verdict per message.
- Ingest.Server: an insert that errors is taken to have committed nothing; parsing and enrichment are one step; whether a source is memoized is left open, so any record may need a look-up. Backoff lengths are not modelled. Steps without branching (accept, read, leave, deadline, return) exist only in the step system.
- Ingest.SenderNeverStuck: the steps exist; that the scheduler takes them and the database recovers is not claimed.
- JobLifecycle.JobRecord: rendering, dialling, the EPS window and error texts are not modelled; a run may leave at any time, which covers duration and cancellation. Persistence of the job list is left out.
- Supervisor.ApplyIsAllOrNothing: one Apply at a time (the server's mutex), file writes that succeed and archive ids that increase; the extra SIGHUP after a timeout is not modelled, nor is the claim that a log line belongs to a given config.
- Supervisor.Monitor.LogLine: the log ring and the timestamp stripped from collected errors are not modelled.
- Yardauth.NoUserAfterTtl: revocation is permanent and takes effect at one instant upstream; HTTP, cookies and roles are left out.
- Throttle.SingleSourceNeverLocksAccount: attempts do not overlap and the clock is monotone in their order.
- Throttle.BruteForceIsStopped: the same; its window is the account's fixed one, which the first failure after the last expiry opens, as the program counts it.
- Queries.MatchesAsWritten: a quoted text whose closing quote is missing, and `or` written where it is a plain word, are outside the written form; `OperandsBecomeTermsOrOperators` and `OperatorsStandBetweenTerms` hold of those too.
- Shapes.MailAddress: chunks that need trimming are read as their trimmed text by definition; the shapes are stated for those that do not.
- Limiter.AllowIsExact: the clock is monotone in lock order, although the program reads it just before taking the lock.
- Pacer.TakeAccounts: floats are reals; times are seconds.
- Framing.DecodesFrame: a message is its sequence of bytes, one character each, as `Frame` counts the bytes of a Go string.
- StreamSender.Stream.Send: a failed write is taken to leave a strict prefix of the frame; the hang-up probe, deadlines and TLS are an oracle.
- Netclass.LastAddr: an address is its 128 bits in network order, so the sixteen bytes and their shifts are one bit array; zones are left out.
- Netclass.AddrSet: `Scope`, `Classify` and address extraction are linear scans and regular expressions and are left out.
- AuditLog.ReadAll: the filters and the ordering belong to the query; the rows handed in are those matching, with ids from a sequence and times within the cursor's range, and the table does not change between pages.
- Notify.EveryNotifyOnce: a row whose insert into the log table fails counts as logged, as the program only reports it; a drop counted after the last flush stays counted and unwritten. Formatting and sending are one outside step.
- NotifyRates.RatePerLimiter: the clock is monotone in lock order; a rate of zero means unlimited and is outside the claim.
- Spelling.NothingLostOrInvented: lower-casing is per character, leaves the joining marks alone and is idempotent.
- FlowPaths.FlowPathsOf: `sort.Slice` leaves the order of paths with equal source and sink open; the model keeps their walk order, and the routing theorems do not depend on it.
- The hose's tail ring buffer, the key=value extractor, the listener overlap check, graph sanitising and the server's activate and rollback: shorter arguments of kinds already covered above.
- HTTP handlers, JSON codecs, OIDC, SMTP and webhook delivery, certificates, static catalogs and the web interfaces.
