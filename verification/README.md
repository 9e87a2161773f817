# Verified core of the Codex app server and its shared-session server

This project models the parts of the repository whose behaviour is hardest to see from the code, and proves what they are for.

| file | models |
|---|---|
| `SchemaRefs.dfy`, `SchemaPaths.dfy`, `SchemaMeaning.dfy`, `Flatten.dfy` | the flattening of the v2 JSON-schema bundle: which definitions survive, how `$ref`s are rewritten, the final checks |
| `Reachability.dfy`, `StripVariants.dfy`, `StripSafety.dfy` | both definition worklists, the removal of method variants with the definitions nothing needs any more, and what that does to the references that stay |
| `Scanner.dfy`, `TypeText.dfy`, `FilterTwice.dfy` | the TypeScript lexer, TypeScript text as a structure, top-level splitting, and filter-and-join of union arms and fields |
| `JsonText.dfy`, `Sorting.dfy`, `Canonical.dfy`, `CanonicalOrder.dfy` | the canonical form of schema fixtures |
| `Chunking.dfy`, `ChunkSize.dfy`, `DiffParser.dfy`, `EffectiveLines.dfy` | accepted-line fingerprints: the unified-diff parser and the greedy chunker |
| `Reducer.dfy`, `TurnAccounting.dfy`, `TurnOrder.dfy`, `EventOrigins.dfy` | the analytics reducer |
| `Forwarder.dfy` | the in-process client's event forwarder with its bounded queue and lag marker |
| `RemoteWorker.dfy`, `RemoteWire.dfy` | the remote client: handshake, worker loop, pending requests, event stream |
| `Snapshots.dfy` | snapshot writes of shared sessions, with transactions interleaved step by step |
| `RateLimit.dfy` | the fixed-window rate limiter |
| `Text.dfy`, `Json.dfy`, `Protocol.dfy` | strings, JSON values, request ids |

State that the code updates in place is a class; each of its methods is proved equal to one step of a transition function on the object's view, and the theorems are about all runs of that function. Loops keep their loops and are proved against a specification. What a transition or specification function computes is in turn pinned by theorems that do not mention it: structures and their rendering, frames and events matched directly, histories, places in a schema.

`dafny verify dfyconfig.toml` verifies everything.

## What the proofs found

- Flattening fails on a well-shaped bundle in which a kept definition points at `#/definitions/v2` itself and no v2 definition is called `v2`. `Flatten.NamespaceReferenceExample` is such a bundle and `Flatten.ChecksPassExactly` shows that no other well-shaped bundle fails.
- When a v2 name is also the name of a surviving root definition, flattening succeeds and silently redirects references to the definition that wins. `Flatten.RedirectedExactly` says which references that is.
- `strip_method_variants_from_json_schema` can leave a dangling reference in two ways. The traversal skips nested definition maps, so a definition only they refer to is dropped (`StripSafety.HiddenReferenceExample`). Removing a variant moves the later ones, so a pointer such as `#/oneOf/1` changes meaning or dangles (`StripSafety.ShiftedPointerExample`). Over all local references, `StripSafety.StripIsSafeExactly` says exactly when each keeps its target and `StripSafety.StripDanglesExactly` exactly when each still leads somewhere.
- Splitting the filtered and joined arms again gives the kept arms exactly when every one of them but the last ends outside strings, comments and brackets (`Scanner.FilterIsFaithfulExactly`). A line comment breaks it, because the line feed that ended it is not kept (`Scanner.LineCommentExample`). Filtering such a body a second time can then lose even what was kept (`FilterTwice.TwiceExample`); `FilterTwice.FilterTwiceExactly` says when filtering twice is filtering once.
- The lexer reads the `>` of an arrow as a closing bracket, so a function type inside angle brackets is cut at a delimiter to the right of its arrow, and only then (`TypeText.ArrowInAngleExactly`). It takes a block comment that begins with `/*/` to end there (`TypeText.SlashCommentExample`). All other structured text splits into its arms (`TypeText.TypeTextSplits`).
- The chunker turns an empty input into one empty chunk, where zero chunks would do (`Chunking.EmptyInputExample`); it is optimal on every other input. Its size estimate counts one byte too many for each fingerprint (`ChunkSize.EstimateIsJsonLength`).
- Position-by-position loss accounting is exact if and only if the lag counter has not saturated (`Forwarder.LossIsExactlyLocated`). A consumer that stops reading does saturate it (`Forwarder.SaturationExample`).
- When a turn's start request and its resolved configuration disagree on thread or image count, the later of the two wins, so the arrival order shows in the event (`TurnOrder.OrderIsInvisibleExactly`).
- With a clock that runs backwards, cleanup of the rate limiter can change replies (`RateLimit.BackwardClockExample`). It does not as long as no request misses a bucket that still counts for it (`RateLimit.UnmissedCleanupIsInvisible`). After any history at all, it stays invisible from then on if and only if the same windows are open with counts alike (`RateLimit.CleanupIsInvisibleExactly`).
- The comment at server/src/sessions.ts:216 reads as if a missing base were always accepted; the test at server/src/sessions.ts:220 makes an explicit `null` base conflict as soon as a snapshot exists. The model follows the test (`Snapshots.CurrentBaseIsAccepted`).

## Model

| member | source | states |
|---|---|---|
| `SchemaRefs.RefsRewritten` | codex-rs/app-server-protocol/src/export.rs:1175-1192 | rewriting a value rewrites exactly the references in it: the references of the result are the rewritten references of the input, no more and no fewer |
| `SchemaRefs.FlatV2` | codex-rs/app-server-protocol/src/export.rs:1175-1192 | a single-segment v2 reference becomes the root reference of the same name |
| `SchemaPaths.RefsArePlaced` | codex-rs/app-server-protocol/src/export.rs:1131-1151 | a string is a reference of a schema exactly when some object at some place in it has that string under `$ref` |
| `SchemaPaths.OnlyReferencesChange` | codex-rs/app-server-protocol/src/export.rs:1175-1192 | place by place: rewriting keeps every kind, size, key and scalar, and changes only the strings under `$ref`, to their replacement |
| `SchemaPaths.EveryOccurrenceReplaced` | codex-rs/app-server-protocol/src/export.rs:1179 | with a text taken apart at the leftmost occurrences of a pattern, replacing puts the replacement for every one and keeps all between them |
| `SchemaPaths.TextComesApart` | codex-rs/app-server-protocol/src/export.rs:1179 | every text comes apart in that way |
| `Reachability.ReachIsLeastClosed` | codex-rs/app-server-protocol/src/export.rs:1153-1173 | the reachable names are the least set that holds the start and is closed under the edges |
| `Reachability.MarkWhenPopped` | codex-rs/app-server-protocol/src/export.rs:1153-1173 | the worklist that marks names when popped ends, on cycles too, with exactly the least closed set |
| `Reachability.MarkWhenPushed` | codex-rs/app-server-protocol/src/export.rs:1417-1432 | the worklist that marks names when pushed ends with exactly the least closed set |
| `Flatten.CollectDefinitionDependencies` | codex-rs/app-server-protocol/src/export.rs:1153-1173 | the dependencies collected are the least closed set of the non-v2 reference graph |
| `Flatten.PullIn` | codex-rs/app-server-protocol/src/export.rs:1106-1113 | v2 definitions win; a needed root definition is added only under a name v2 does not use, and never `v2` itself |
| `Flatten.AddShared` | codex-rs/app-server-protocol/src/export.rs:1097-1115 | shared root definitions override whatever has their name and everything else is kept |
| `Flatten.FlatDefinitions` | codex-rs/app-server-protocol/src/export.rs:1093-1115 | each name of the flat map holds what the precedence of shared, v2 and pulled-in definitions says, keys unique |
| `Flatten.FlatContents` | codex-rs/app-server-protocol/src/export.rs:1075-1123 | the flat bundle defines exactly the kept names, each as the rewritten copy of its kept definition |
| `Flatten.FlatRefs` | codex-rs/app-server-protocol/src/export.rs:1075-1123 | the references of the flat bundle are exactly the rewritten references of what is kept |
| `Flatten.KeptRefLeads` | codex-rs/app-server-protocol/src/export.rs:1125-1192 | every kept reference, once rewritten, is a single-segment reference to a v2 name or to a surviving root name |
| `Flatten.TargetsPreserved` | codex-rs/app-server-protocol/src/export.rs:1075-1192 | without clashes, every rewritten reference resolves to the rewritten copy of what the original resolved to |
| `Flatten.RedirectedExactly` | codex-rs/app-server-protocol/src/export.rs:1106-1119 | with clashes, a kept reference finds the copy of its target exactly when the definition it meant is the one that wins its name, or both copies are equal |
| `Flatten.ChecksPassExactly` | codex-rs/app-server-protocol/src/export.rs:1194-1265 | no v2 reference is left, and the missing definitions are exactly `v2` when something kept points at the namespace object and v2 has no definition called `v2`, and none otherwise |
| `Flatten.BuildFlatV2Schema` | codex-rs/app-server-protocol/src/export.rs:1075-1123 | the error for each malformed bundle; on any success both checks hold, the title is extended, every other root member is carried over with its references rewritten, and every name holds what the precedence says; for every well-shaped bundle the exact success condition with its error, contents, references, and exactly which references change target, none without clashes |
| `SchemaMeaning.MeaningPreserved` | codex-rs/app-server-protocol/src/export.rs:1175-1192 | unfolding references to any depth, a schema whose references lead to rewritten copies means the same before and after rewriting, through cycles |
| `Flatten.DefinitionsKeepTheirMeaning` | codex-rs/app-server-protocol/src/export.rs:1075-1123 | to every depth a kept definition and its copy in the flat bundle unfold to the same schema |
| `Flatten.ReferencesKeepTheirMeaning` | codex-rs/app-server-protocol/src/export.rs:1075-1123 | to every depth a kept reference and its rewritten form unfold to the same schema |
| `Flatten.NamespaceReferenceExample` | codex-rs/app-server-protocol/src/export.rs:1221-1265 | a bundle the method accepts, well-shaped and without clashes, whose kept reference to the namespace object resolves before and has no definition after |
| `StripVariants.RetainedExactly` | codex-rs/app-server-protocol/src/export.rs:1389-1415 | a variant stays exactly when its method literal is not in the set |
| `SchemaPaths.VariantsStayExactly` | codex-rs/app-server-protocol/src/export.rs:1389-1415 | by JSON pointer: a variant stays exactly when neither its method `const` nor, without a string there, the first entry of its method `enum` is in the set |
| `SchemaPaths.OuterRefsArePlaced` | codex-rs/app-server-protocol/src/export.rs:1434-1457 | the pruning traversal sees exactly the references at places not below a nested `definitions` or `$defs` |
| `StripVariants.ReachableLocalDefinitions` | codex-rs/app-server-protocol/src/export.rs:1417-1501 | the names kept are the least closed set over references below each definition, started from references outside nested definition maps |
| `StripVariants.StripMethodVariants` | codex-rs/app-server-protocol/src/export.rs:1381-1399 | the result is the schema without those variants and without the definitions outside that least closed set; every other member is unchanged, and so is a schema without a union |
| `StripSafety.SurvivorStands` | codex-rs/app-server-protocol/src/export.rs:1389 | the variant at each position after the removal is the one its survivor position names, and there is none beyond the survivors |
| `StripSafety.SurvivorInPlace` | codex-rs/app-server-protocol/src/export.rs:1389 | a position keeps its variant exactly when nothing at or before it is removed |
| `StripSafety.LandsExactly` | codex-rs/app-server-protocol/src/export.rs:1381-1399 | any local reference that resolves keeps its target exactly when it lands: pointers into the union on the same content, references to definitions on a name that stays, whole parts when nothing is removed from them, and every other pointer always |
| `StripSafety.RemainsExactly` | codex-rs/app-server-protocol/src/export.rs:1392-1399 | the references left after pruning are those the traversal saw, those it did not, one the map itself carries, and those inside kept definitions |
| `StripSafety.StripIsSafeExactly` | codex-rs/app-server-protocol/src/export.rs:1381-1399 | over all local references: what resolved before resolves to the same schema after, if and only if every unseen definition reference names a kept definition and every remaining pointer lands |
| `StripSafety.DanglesExactly` | codex-rs/app-server-protocol/src/export.rs:1381-1399 | any local reference that resolves leads nowhere afterwards exactly when its variant position has no survivor, the survivor there lacks the rest of the path, or its definition is dropped |
| `StripSafety.StripDanglesExactly` | codex-rs/app-server-protocol/src/export.rs:1381-1399 | over all local references: what resolved before still resolves to something, if and only if every unseen definition reference names a kept definition and no remaining pointer leads nowhere |
| `StripSafety.StripKeepsReferences` | codex-rs/app-server-protocol/src/export.rs:1381-1399 | with no definitions map but the root's, every definition reference that resolved before finds the same definition, and all local references do if and only if the pointers land |
| `StripSafety.ShiftedPointerExample` | codex-rs/app-server-protocol/src/export.rs:1389 | a schema without definitions whose pointer to the second variant dangles once the first is removed |
| `StripSafety.HiddenReferenceExample` | codex-rs/app-server-protocol/src/export.rs:1434-1457 | a schema whose reference below a nested definitions map dangles although nothing is removed from the union |
| `Scanner.ScanState.Observe` | codex-rs/app-server-protocol/src/export.rs:890-978 | one character changes the lexer's fields as the pure step function says |
| `Scanner.SplitTopLevelMulti` | codex-rs/app-server-protocol/src/export.rs:758-777 | the index loop returns the trimmed non-empty pieces between delimiters seen outside strings, comments and brackets |
| `TypeText.TypeTextSplits` | codex-rs/app-server-protocol/src/export.rs:758-978 | for text given as characters, quoted strings with escapes, comments and nested groups in four kinds of brackets: splitting gives its arms, trimmed, blank ones left out, nothing cut inside a group, string or comment |
| `TypeText.JoinedTypesSplit` | codex-rs/app-server-protocol/src/export.rs:754-978 | such arms without outer whitespace, joined by a separator, are exactly what splitting gives back |
| `TypeText.FilteredTypeText` | codex-rs/app-server-protocol/src/export.rs:305-328 | filtering a body of such text joins the kept arms, each at its place in the order and none left out |
| `TypeText.ArrowInAngleExactly` | codex-rs/app-server-protocol/src/export.rs:950-955 | a function type inside angle brackets stays in one piece if and only if no delimiter stands to the right of its arrow |
| `TypeText.SlashCommentExample` | codex-rs/app-server-protocol/src/export.rs:900-938 | a block comment whose text starts with a slash and holds a delimiter is split in two |
| `Scanner.FilterSelects` | codex-rs/app-server-protocol/src/export.rs:313-319 | filtering picks exactly the positions of the kept arms, in increasing order |
| `Scanner.PiecesFromAreArms` | codex-rs/app-server-protocol/src/export.rs:758-777 | every piece is trimmed, non-empty and holds no top-level delimiter; if the scan never enters a line comment all pieces but the last end at top level |
| `Scanner.ResplitExactly` | codex-rs/app-server-protocol/src/export.rs:754-777 | splitting joined arms gives those arms back if and only if all but the last end at top level |
| `Scanner.FilterIsFaithful` | codex-rs/app-server-protocol/src/export.rs:305-328 | for every body without line comments and every filter, re-splitting the filtered body gives exactly the kept arms in order, and filtering twice is filtering once |
| `Scanner.FilterIsFaithfulExactly` | codex-rs/app-server-protocol/src/export.rs:305-328 | for every body and filter, re-splitting gives the kept arms if and only if all of them but the last end at top level |
| `Scanner.LineCommentExample` | codex-rs/app-server-protocol/src/export.rs:305-328 | two arms on two lines, the first with a line comment: keeping both loses the second when the body is split again |
| `FilterTwice.FilterFixesExactly` | codex-rs/app-server-protocol/src/export.rs:305-328 | for every text and filter, filtering leaves the text alone if and only if every piece is kept and the text is its pieces joined by the separator |
| `FilterTwice.FilterTwiceExactly` | codex-rs/app-server-protocol/src/export.rs:305-328 | for every body and filter, line comments included, filtering twice is filtering once if and only if every piece of the filtered body is kept and those pieces joined give it back |
| `FilterTwice.TwiceExample` | codex-rs/app-server-protocol/src/export.rs:305-328 | two kept arms, the first with a line comment, that read as one piece once filtered and are lost when the filter runs again |
| `Scanner.SeparatorsFit` | codex-rs/app-server-protocol/src/export.rs:370-395 | the separators are a bar between spaces for union arms and a comma and a space for fields, and meet the condition of the theorem for their delimiters |
| `JsonText.PrintInjective` | codex-rs/app-server-protocol/src/schema_fixtures.rs:152-208 | the printed tie-break text determines the value, whatever follows it |
| `Sorting.SortOfBag` | codex-rs/app-server-protocol/src/schema_fixtures.rs:152-208 | sorting two arrangements of one bag gives one sequence when the order separates its elements |
| `Sorting.SortMapped` | codex-rs/app-server-protocol/src/schema_fixtures.rs:175-205 | sorting elements that carry their keys, and sorting entries before their values are canonicalised, give what sorting the finished elements gives |
| `Canonical.KeyKept` | codex-rs/app-server-protocol/src/schema_fixtures.rs:210-227 | the sort key of a value is the sort key of its canonical form |
| `Canonical.CanonicalizeJson` | codex-rs/app-server-protocol/src/schema_fixtures.rs:152-208 | the recursive method computes the canonical form of every value |
| `Canonical.SortIfKeyed` | codex-rs/app-server-protocol/src/schema_fixtures.rs:175-195 | when every element has a key they are sorted by key and printed text; one without a key leaves the whole array in its order |
| `Canonical.CanonicalizeArray` | codex-rs/app-server-protocol/src/schema_fixtures.rs:153-192 | arrays are sorted by key and printed text exactly when every element has a key |
| `Canonical.CanonicalizeObject` | codex-rs/app-server-protocol/src/schema_fixtures.rs:193-205 | entries are sorted by key with canonical values |
| `CanonicalOrder.ArraysComeInOrder` | codex-rs/app-server-protocol/src/schema_fixtures.rs:175-192 | an array of scalars, references and titled objects comes out permuted into booleans, numbers, nulls, references, strings, titled objects, each ascending by text and then by printed form; any other array keeps its order |
| `CanonicalOrder.StringsComeAscending` | codex-rs/app-server-protocol/src/schema_fixtures.rs:175-192 | an array of strings comes out in ascending order, every string as often as before |
| `CanonicalOrder.ObjectsComeInOrder` | codex-rs/app-server-protocol/src/schema_fixtures.rs:196-205 | an object comes out with its keys ascending, each with the canonical form of its value |
| `Canonical.OrderDoesNotMatter` | codex-rs/app-server-protocol/src/schema_fixtures.rs:152-208 | values that differ only by permuting fully keyed arrays and object entries, at any level, have one canonical form |
| `Canonical.OnlyOrderIsForgotten` | codex-rs/app-server-protocol/src/schema_fixtures.rs:152-208 | values with one canonical form differ only by such permutations |
| `Canonical.CanonIsNormalForm` | codex-rs/app-server-protocol/src/schema_fixtures.rs:152-227 | both directions together; the form is idempotent and equivalent to its value |
| `Chunking.FingerprintChunks` | codex-rs/analytics/src/accepted_lines.rs:175-211 | the chunks concatenate to the input, each is within 2 MiB or a single item, and no chunk could have taken the next item; an empty input gives one empty chunk |
| `Chunking.GreedyStaysAhead` | codex-rs/analytics/src/accepted_lines.rs:175-211 | the first n greedy chunks cover at least as much as the first n chunks of any other legal partition |
| `Chunking.GreedyIsOptimal` | codex-rs/analytics/src/accepted_lines.rs:175-211 | no legal in-order partition has fewer chunks |
| `Chunking.EmptyInputExample` | codex-rs/analytics/src/accepted_lines.rs:175-211 | on the empty input zero chunks are a legal partition and so is the one empty chunk produced |
| `ChunkSize.EstimateIsJsonLength` | codex-rs/analytics/src/accepted_lines.rs:185-211 | the estimate of a chunk is 1024 and the exact length of its fingerprints as a JSON array, less the brackets, plus one byte for each |
| `ChunkSize.FittingChunkIsSmall` | codex-rs/analytics/src/accepted_lines.rs:185-211 | the JSON of a chunk of several fingerprints is at most 2 MiB less 1 KiB |
| `Chunking.EventRequests` | codex-rs/analytics/src/accepted_lines.rs:97-133 | line counts over the events sum to the input counts and stand on the first event, their fingerprints partition the input, and no partition needs fewer events |
| `DiffParser.FingerprintsFromUnifiedDiff` | codex-rs/analytics/src/accepted_lines.rs:33-86 | the line loop with its four variables computes the parse of the text |
| `DiffParser.ParseUnlines` | codex-rs/analytics/src/accepted_lines.rs:33-86 | splitting newline-terminated lines, carriage returns stripped, parses like the lines themselves |
| `DiffParser.HunksParsed` | codex-rs/analytics/src/accepted_lines.rs:42-77 | inside hunks, body lines that look like file headers are counted as body lines |
| `DiffParser.ParsingInvertsRendering` | codex-rs/analytics/src/accepted_lines.rs:33-86 | for every structured git diff, parsing its text gives its added and deleted counts and, in order, the fingerprints of effective added lines under real targets |
| `DiffParser.LastNewlineDoesNotMatter` | codex-rs/analytics/src/accepted_lines.rs:42 | the same holds of the text without its final newline |
| `EffectiveLines.FingerprintExactly` | codex-rs/analytics/src/accepted_lines.rs:66-76 | for a line given as words and whitespace: one fingerprint, of the path and of the words with single spaces, exactly when there is a path, the words take more than three bytes and a letter, digit or underscore is among them |
| `EffectiveLines.LayOut` | codex-rs/analytics/src/accepted_lines.rs:162 | every line is words and whitespace in that form |
| `EffectiveLines.SpacingIsInvisible` | codex-rs/analytics/src/accepted_lines.rs:161-173 | lines of the same words have the same fingerprint |
| `EffectiveLines.TargetExactly` | codex-rs/analytics/src/accepted_lines.rs:147-159 | a target with whitespace around it is its path, without the prefix `a/` or `b/` if it has one, and none for `/dev/null` |
| `DiffParser.GitTarget` | codex-rs/analytics/src/accepted_lines.rs:147-159 | a target written with git's `b/` prefix is read as the path without it |
| `DiffParser.NullTarget` | codex-rs/analytics/src/accepted_lines.rs:147-159 | `/dev/null` is no target |
| `Reducer.AnalyticsReducer.MaybeEmitTurnEvent` | codex-rs/analytics/src/reducer.rs:1018-1069 | a turn is reported, followed by its accepted lines, and forgotten exactly when every needed fact, its connection and its thread's metadata are known; otherwise nothing changes |
| `Reducer.AnalyticsReducer.IngestTurnStartResponse` | codex-rs/analytics/src/reducer.rs:667-692 | the pending request is removed whatever its kind; only a start request is recorded in the turn |
| `Reducer.AnalyticsReducer.IngestTurnSteerResponse` | codex-rs/analytics/src/reducer.rs:953-976 | only a pending steer is accepted; the count grows only on an existing entry; the other maps are untouched |
| `Reducer.AnalyticsReducer.IngestErrorResponse` | codex-rs/analytics/src/reducer.rs:703-751 | a pending steer becomes a rejected steer event; any other pending request just goes |
| `Reducer.AnalyticsReducer.IngestSubAgentThreadStarted` | codex-rs/analytics/src/reducer.rs:399-427 | known metadata and connection are kept; otherwise metadata is made and the parent's connection inherited |
| `Reducer.AnalyticsReducer.IngestFact` | codex-rs/analytics/src/reducer.rs:284-372 | every kind of fact changes the five maps and the output as the transition function says |
| `Reducer.RunKeepsThreadsKnown` | codex-rs/analytics/src/reducer.rs:888-930 | over every run, each known thread has metadata and any connection it names, inherited ones included, is known |
| `Reducer.OnlyThreadConnectionIsMissing` | codex-rs/analytics/src/reducer.rs:1071-1107 | in every reachable state the connection and metadata drop branches are unreachable, and context is found exactly for threads with a connection |
| `TurnAccounting.TurnEventsOfStep` | codex-rs/analytics/src/reducer.rs:1018-1069 | one fact adds a turn event for a turn exactly when it completes it, and adds none for any other turn |
| `TurnAccounting.TurnEventsAreBounded` | codex-rs/analytics/src/reducer.rs:953-1069 | over every run, turn events for a turn are at most its matched start responses, its configuration facts, and its completions |
| `TurnAccounting.EverySteerIsAccountedFor` | codex-rs/analytics/src/reducer.rs:451-480 | over every run, steer requests equal steer events plus pending steers plus the ones discarded by an overwritten key, a start response, or unknown context |
| `TurnAccounting.TurnEventCountsItsSteers` | codex-rs/analytics/src/reducer.rs:953-976 | every history before a turn event splits at the fact that made the turn's entry, which then stayed, and the event's steer count is the number of steers accepted for the turn after that fact |
| `EventOrigins.SteerEventTellsItsAnswer` | codex-rs/analytics/src/reducer.rs:953-1016 | over every run, a steer event is about a steer request and the next fact with its key: accepted with the turn for a response, rejected with the reason for an error, with the client and thread known by then |
| `EventOrigins.ToolItemTellsItsTimes` | codex-rs/analytics/src/reducer.rs:758-810 | over every run, a tool event has the time of the last start of its item and the time of its completion, and the context of its thread |
| `EventOrigins.ToolItemIsReported` | codex-rs/analytics/src/reducer.rs:778-813 | over every run, a completion reports the item exactly when its start is known, its time is valid, it is terminal and its thread has a connection |
| `EventOrigins.ThreadEventsAreAnnounced` | codex-rs/analytics/src/reducer.rs:399-449 | over every run, thread, compaction and review events carry what the fact that caused them says |
| `EventOrigins.ThreadOrigin` | codex-rs/analytics/src/reducer.rs:888-930 | over every run, a thread is described by the last response for it on a known connection, or else by the first subagent start for it |
| `EventOrigins.SubAgentInherits` | codex-rs/analytics/src/reducer.rs:399-427 | a subagent thread without a connection gets its parent's; one that has a connection keeps it |
| `EventOrigins.RequestIsKept` | codex-rs/analytics/src/reducer.rs:451-480 | over every run, a request waits as it was made until another fact has its key |
| `TurnOrder.TurnIsReportedOnce` | codex-rs/analytics/src/reducer.rs:482-527 | in every arrival order, with foreign facts and steers of the turn anywhere between, exactly one turn event is emitted, its payload and accepted lines depend only on what came last of each kind of fact, repeats allowed, and how many steers were counted, and the turn is forgotten |
| `TurnOrder.TurnReportsItsDiff` | codex-rs/analytics/src/reducer.rs:1679-1707 | in the same runs, when the last diff is the text of a structured git diff, the accepted lines reported are exactly its added and deleted counts and its fingerprints, under the turn, its thread and its model, and nothing when it changes no line |
| `TurnOrder.ArrivalOrderDoesNotMatter` | codex-rs/analytics/src/reducer.rs:815-883 | any two arrival orders with the same last fact of each kind and equally many steers counted give the same report |
| `TurnOrder.OrderIsInvisibleExactly` | codex-rs/analytics/src/reducer.rs:482-505 | start response before or after configuration gives the same event if and only if request and configuration agree on thread and images |
| `Forwarder.InProcessWorker.PullEvent` | codex-rs/app-server-client/src/lib.rs:545-566 | a token-refresh request is failed on the spot; any other event starts one forward attempt |
| `Forwarder.InProcessWorker.DropEvent` | codex-rs/app-server-client/src/lib.rs:204-270 | a dropped event adds to the saturating lag counter; a dropped server request is failed back |
| `Forwarder.InProcessWorker.AdvanceWorker` | codex-rs/app-server-client/src/lib.rs:204-270 | one worker step: flush the marker or wait for it, then pass, wait or drop by the event's delivery class and the room left |
| `Forwarder.LossIsExactlyLocated` | codex-rs/app-server-client/src/lib.rs:204-270 | in every run the queue stays within capacity; with the receiver open, expanding markers to holes matches the forwarded stream position by position if and only if the counter never saturated, which needs more events than it can count; must-deliver events then all arrive once and in order |
| `Forwarder.SaturationExample` | codex-rs/app-server-client/src/lib.rs:204-270 | a legal run with queue capacity one and a consumer that stops reading, in which one drop goes uncounted and the account no longer matches the stream |
| `Forwarder.DropsExactlyWhenFull` | codex-rs/app-server-client/src/lib.rs:204-270 | in every run a step drops an event if and only if it tries to send, without waiting, to an open receiver whose queue is full, and never a transcript or completion event |
| `Forwarder.WaitsExactlyWhenFull` | codex-rs/app-server-client/src/lib.rs:212-255 | in every run the worker waits only with a transcript or completion event and a full queue, and polling stops only after the receiver is gone |
| `Forwarder.NothingIsLostWithRoom` | codex-rs/app-server-client/src/lib.rs:204-270 | in a run whose queue always has room the consumer's account is the stream itself and every request but the token refreshes is enqueued |
| `Forwarder.RequestsAreEnqueuedOrFailed` | codex-rs/app-server-client/src/lib.rs:493-592 | in every run with the receiver open each server request pulled, token refreshes included, is enqueued or failed, never both or neither and never twice, and the error code tells a refresh from an overload |
| `Forwarder.ClosedRun` | codex-rs/app-server-client/src/lib.rs:493-592 | after the receiver is dropped nothing is enqueued, only token refreshes are failed, and the first forward attempt disables polling for good |
| `RemoteWorker.RemoteClient.HandleCommand` | codex-rs/app-server-client/src/remote.rs:219-312 | a duplicate id, a failed write and a good write each have their reply and new pending map |
| `RemoteWorker.RemoteClient.HandleFrame` | codex-rs/app-server-client/src/remote.rs:313-456 | each frame answers the pending caller, delivers an event, rejects an unrecognised request, or ends the worker with its message |
| `RemoteWorker.RemoteClient.HandleHandshakeFrame` | codex-rs/app-server-client/src/remote.rs:681-804 | before the initialize answer, events are buffered and unrecognised requests rejected; a refusal or close ends the handshake |
| `RemoteWorker.RemoteClient.DrainPending` | codex-rs/app-server-client/src/remote.rs:460-468 | the exit loop answers every pending caller with the exit message by legal steps and leaves none |
| `RemoteWorker.RemoteClient.TakeEvent` | codex-rs/app-server-client/src/remote.rs:603-608 | buffered handshake events are consumed first, in order |
| `RemoteWorker.EveryCommandAnsweredOnce` | codex-rs/app-server-client/src/remote.rs:213-469 | over every run and exit path each command taken is answered at most once, is unanswered exactly while it waits, and exactly once when nothing is pending |
| `RemoteWorker.RepliesReachTheirCallers` | codex-rs/app-server-client/src/remote.rs:313-360 | in every run a result or server error is the content of the frame received just before and goes to the caller of the latest write with that id, with no other write and no answer of that id between |
| `RemoteWorker.AnswerBetweenWrites` | codex-rs/app-server-client/src/remote.rs:219-360 | in every run, between two writes of one id an answer frame for that id was received |
| `RemoteWorker.StreamIsExact` | codex-rs/app-server-client/src/remote.rs:313-468 | the consumer sees exactly the recognised notifications and requests in wire order across the handshake, then at most one disconnect with the message the pending callers get |
| `RemoteWire.StreamIsTheFrames` | codex-rs/app-server-client/src/remote.rs:313-370 | in every run, field by field: the n-th event given to the consumer shows the n-th recognised notification or request frame, a consumer that stays gets them all, then at most one farewell |
| `RemoteWire.RepliesCarryTheirFrames` | codex-rs/app-server-client/src/remote.rs:317-326 | in every run a caller's result or error is what the response or error frame just before carries, for the caller's own latest write |
| `RemoteWire.AnswersReachTheirCallers` | codex-rs/app-server-client/src/remote.rs:317-326 | in every run the first answer frame to a caller's request is passed on to that caller next |
| `RemoteWire.EndIsExplained` | codex-rs/app-server-client/src/remote.rs:385-468 | in every run the exit message is that of the frame or failed write that ended the client, the last thing on the wire, and every frame that should end a connection does |
| `RemoteWire.HandshakeNeedsAResult` | codex-rs/app-server-client/src/remote.rs:681-804 | in every run a client past the handshake had a result as first answer to `initialize`, acknowledged before any command |
| `RemoteWire.RequestsAreTaken` | codex-rs/app-server-client/src/remote.rs:225-258 | in every run a request is a duplicate if and only if one with its id is unanswered on the wire; else it is written and waits, or fails and ends the client |
| `RemoteWire.OthersAreTaken` | codex-rs/app-server-client/src/remote.rs:259-310 | in every run any other command is answered with the outcome of its write, and only a shutdown ends the client |
| `RemoteWire.CommandsAreWritten` | codex-rs/app-server-client/src/remote.rs:219-312 | in every run commands are written as given, under their own number, and none is reported done without |
| `RemoteWorker.UnrecognisedRequestsAreRejected` | codex-rs/app-server-client/src/remote.rs:681-804 | in every run every unrecognised server request, in handshake and worker, is followed by a method-not-found answer unless that write failed and ended the client |
| `Snapshots.SessionStore.BeginPatch` | server/src/sessions.ts:331-333 | a transaction starts without touching committed data |
| `Snapshots.SessionStore.UpdateRow` | server/src/sessions.ts:334-345 | the row change takes the row lock and stays inside the transaction |
| `Snapshots.SessionStore.WriteOrRefuse` | server/src/sessions.ts:212-238 | the snapshot is written exactly when the stated base is the revision just read |
| `Snapshots.SessionStore.CommitPatch` | server/src/sessions.ts:346-348 | commit publishes the row and the snapshot together and frees the lock |
| `Snapshots.CurrentBaseIsAccepted` | server/src/sessions.ts:212-225 | an absent base never conflicts, a `null` base conflicts exactly when a snapshot exists, and a stated one exactly when it is not the latest |
| `Snapshots.RunKeepsInv` | server/src/sessions.ts:331-358 | under every interleaving the committed data is the serial replay of the commit log, and a transaction that has read knows the latest revision until it ends |
| `Snapshots.NoUpdateIsLost` | server/src/sessions.ts:198-238 | under every interleaving the log holds exactly the committed transactions, the data is their serial execution, every committed write is a row of the table directly on top of the base it states, revisions increase in commit order, and two transactions that state one base never both commit |
| `Snapshots.DataIsWhatWasStated` | server/src/sessions.ts:331-348 | under every interleaving title and thread id are what the last committed PATCH that gives them stated, and every new snapshot row was written by a committed PATCH |
| `Snapshots.RefusalChangesNothing` | server/src/sessions.ts:224-226 | in every reachable state a conflicting PATCH reports the current revision and changes neither title, thread id nor snapshots |
| `RateLimit.Weight` | server/src/rateLimit.ts:25-29 | a request weighs 1, 3 or 10: 1 exactly for reading methods, 10 exactly for the others on artifact paths |
| `RateLimit.Limiter.CleanupExpiredBuckets` | server/src/rateLimit.ts:39-45 | the loop keeps exactly the buckets still in their window, and runs only when forced or due |
| `RateLimit.Limiter.OnRequest` | server/src/rateLimit.ts:51-75 | one request: cleanup, new window or not, the count, the reply |
| `RateLimit.CleanupIsInvisibleFromStart` | server/src/rateLimit.ts:39-75 | for every history with a non-decreasing clock, deleting expired buckets changes no reply |
| `RateLimit.UnmissedCleanupIsInvisible` | server/src/rateLimit.ts:39-75 | whatever the clock does, no reply changes while no request misses a bucket that still counts for it |
| `RateLimit.ToldApartExactly` | server/src/rateLimit.ts:51-75 | two limiters reply alike to every forward continuation if and only if the same windows are open with counts alike; otherwise a burst of requests tells them apart |
| `RateLimit.CleanupIsInvisibleExactly` | server/src/rateLimit.ts:39-75 | after any history, whatever its clock did, the deletions are invisible from a given time on if and only if the limiter and one that never deletes are alike at that time |
| `RateLimit.RateBound` | server/src/rateLimit.ts:51-75 | in any half-open interval one window long a key is admitted at most twice max(max, 10) weight |
| `RateLimit.RejectedExactly` | server/src/rateLimit.ts:51-71 | for every history with a forward clock a request is rejected if and only if it falls into a window opened before it and the weights charged to that window, its own included, exceed the maximum; the window is found from the history alone |
| `RateLimit.LargeMapsAreSwept` | server/src/rateLimit.ts:73-74 | with more than 10 000 buckets an admitted request in an open window leaves no expired bucket |
| `RateLimit.RetryAfterSuffices` | server/src/rateLimit.ts:60-71 | after a rejection, waiting the advertised seconds with no other use of the key is enough; the advertised time is at least one second, as section 10.2.3 of RFC 9110 needs |
| `RateLimit.WaitingReachesNextWindow` | server/src/rateLimit.ts:60-71 | the advertised seconds reach the next window and one second less does not |
| `RateLimit.BackwardClockExample` | server/src/rateLimit.ts:39-75 | three requests with a clock that runs backwards for which cleanup is visible |

## Left out

- File writing, Prettier, directory walking and schema generation around `export.rs` and `schema_fixtures.rs`: input and output, and libraries that are not part of this model.
- Values are changed in place by `rewrite_ref_prefix` and `strip_method_variants_from_json_schema`; the model returns new values, so aliasing is not captured.
- The order of keys inside JSON objects is kept as a sequence; a hash-ordered map is any such sequence.
- JSON pointer escapes (`~0`, `~1`): the exporter never decodes them, and neither does the model.
- The exporter has no resolver of its own; `Resolve` reads local references (`#/...`) as JSON pointers, section 4 of RFC 6901. A bare `#` and references to other documents are not resolved.
- `extract_method_from_arm`, `parse_property_name` and import pruning: the filter is an arbitrary predicate on the arm's text.
- `TypeText.TypeTextSplits`: comments that begin with `/*/` and arrows inside angle brackets are not part of the structure; what happens to them is stated separately.
- Lexer depths are unbounded; the `i32` limit is not modelled. Positions are characters, not bytes.
- JSON numbers are their printed text; binary floating point is not modelled.
- SHA-1 and the alphanumeric test of effective lines are parameters of the diff parser.
- Repository hashes, clocks and client descriptions in analytics events are parameters or left out of the payload; the field-copying event builders are reduced to the state they read.
- Skill, app, hook and plugin facts only append events and are one stateless kind of fact.
- `codex-rs/analytics/src/client.rs`: sending and batching would only add easy members.
- WebSocket, TLS, timeouts and message decoding: frames are a datatype and write failures an input of each step.
- PostgreSQL beyond a row lock, an increasing id source, commit and rollback; session deletion, request validation and HTTP replies.
- Revisions above 2^53, where `Number` loses precision, and a PATCH whose session row is gone.
- Rate-limiter times and weights are real numbers; the source's clock gives whole milliseconds, and `RateLimit.BackwardClockExample` uses only such readings. The window and the maximum are positive, as `numberEnv` guarantees; how the request key and the health-check path are found is a field of the request.
- Agent graph store, daemon, identity, collaboration and artifact servers, and the build scripts.
