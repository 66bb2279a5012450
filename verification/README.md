# AgentArk: a verified model of its stateful core

This project models the parts of AgentArk whose behaviour spans several functions, several
processes or many calls, and proves what they promise for every input, run and interleaving.

- **Master key** (`MasterKey`, `KeyInitRace`). `master.json` as text, its retry loop, the
  password manager as an object with a history of calls, and any number of services that
  initialise one shared directory at once. Files become visible when they are created and are
  written in pieces, reads return any prefix, and a process may die at any step.
- **MCP over stdio** (`StdioFraming`, `McpSession`). The incremental framer over a byte buffer,
  fed with arbitrary reads, and the client above it: request ids, the handshake, timeouts, late
  replies and restarted servers (JSON-RPC 2.0, sections 4 and 5; Model Context Protocol,
  revision 2025-03-26).
- **API import** (`GraphqlScanner`, `GraphqlAutomaton`, `GraphqlDocuments`, `EscapedBlocks`,
  `CurlImport`, `OperationDrafts`, `GroupMerge`, `LegacyCollapse`, `RequestContract`). The GraphQL scanner that
  decides whether a document is read-only, the curl tokenizer and flag loop, and the normalisers
  that are applied again on every load.
- **Optimizer bridge** (`JsonValues`, `RecordExtraction`, `TrainingCompaction`). The search for
  records in text that holds JSON that holds text, with its caps, and the compaction of values
  for a prompt.
- **Custom channels** (`ChannelNames`, `ChannelAuth`, `ChannelStore`, `ChannelIsolation`,
  `ChannelTests`). Sanitizers, secret slots, the store as an object, isolation over whole runs,
  and the cooldown of two-phase tests.
- **Two small ones** (`MessageSplitter`, `ActionErrors`). The WhatsApp message splitter and the
  structured error text.

Code that updates state in loops or fields is a method or a class here, proved against a
function of its inputs or of the old state; what the code promises is then proved about that
function. `Results`, `Sequences`, `Text` and `Bytes` hold the vocabulary.

What is used of library code is stated in one place each: Argon2, the metadata JSON and the
keyfile text in `MasterKey.Library`, UTF-8 and JSON decoding in `StdioFraming.Codec`, Python's
`json` in `RecordExtraction.Library`, the JSON reader in `RequestContract.Parser`. That no strict
prefix of the metadata text reads as metadata is proved of the printed form in
`MasterKey.JsonIsSound`, for every reader that, like JSON, accepts an object only once it is closed.

## Where the code falls short of its promise

Each is shown by a lemma; where there is a condition under which the promise holds, a lemma gives
it exactly.

- A query whose name, or a variable or type in front of its selection set, spells `mutation` in
  any capitalisation is not classified as read-only (`QueryNamedMutation`, `MutationIsSuchAName`);
  among documents whose block strings are harmless where they stand these are the only ones
  classified wrongly (`ClassificationAgreesIff`); those without escaped triple quotes always are
  (`PlainPiecesAreHarmless`).
- An escaped triple quote ends a block string for the scanner. A document with a mutation can then
  be classified as read-only (`MutationIsHidden`, `OddEscapesHideMutation`), and one that only
  reads as writing (`ReadingIsRefused`, `SelectionIsHidden`, `BraceEndsSelection`). A block string,
  in a selection set however deep or in front of one, does no harm, whatever follows it, if and
  only if it leaves the scanner outside strings and comments, at the same depth and without a
  keyword found (`HarmlessIff`); in a selection set, when it holds no quotes, braces or `#` of its
  own, if and only if the number of its escaped triple quotes is even (`HarmlessIffEven`).
- A `Content-Length` frame is lost when a read ends between the end of the first header line and
  the end of the blank line; that line is then taken for a message (`FrameIsReceivedIff`).
- A server that is started again is never sent `initialize` (`RestartedServerIsNotInitialized`);
  everything else goes to initialised servers if and only if no server is started again behind the
  handshake (`AllServedIff`). A message that cannot be accepted stays in the buffer and fails every
  later request (`BadMessageStays`, `StuckIff`, `FailsForGoodIff`).
- An empty quoted curl word vanishes and shifts the words behind it (`CurlRoundTripIff`).
- An operation without a name, whose fallback name has white space at an end, is changed by a
  second normalisation (`NormalizedTwiceIff`). Merging legacy operations is not idempotent when
  several groups are merged and exactly one of their paths leaves a slug for the id
  (`CollapseTwiceIff`). Loading a configuration twice is loading it once exactly when neither is
  the case (`NormalizedConfigTwiceIff`).
- A keyword with digits directly in front, such as `1query`, counts as an operation signal
  (`DocumentHasOperationSignal`, which says exactly which keywords do).
- Key names in the summary of a deep object are not cut to 480 characters (`LongNameComesOutWhole`,
  `ClippedIff`).
- A secret whose field was dropped from a channel outlives the channel
  (`DroppedSecretOutlivesChannel`), and so do credentials that are written behind a concurrent
  delete (`CredentialsSurviveDelete`). Deleting a channel leaves none of its secrets, at any moment
  of any run behind it, if and only if all of them were in slots its last manifest names and no
  value is stored for it behind the deletion (`DeletedSecretsStayGoneIff`).
- The message splitter tears a surrogate pair when it lies across the limit and no line end lies
  in the second half of it, and only then (`PairIsTornIff`, `TornEmoji`).
- A test that finishes 30 seconds after its start or later can end the cooldown of a newer one
  (`LateFinishEndsCooldown`); in runs with arbitrary finish times the cooldown holds if and only if
  every test that finishes is the newest or finishes 30 seconds behind the newest start
  (`AlwaysSafeIff`).
- A text that begins with `ERR/` but does not parse is passed on as structured
  (`PrefixAloneIsNotParsed`, `EnsuredParsesIff`).
- A test in `src/crypto/master.rs` (lines 386-422) expects a key for each of eight concurrent
  bootstrap calls; a call whose first check finds `master.json` returns `Ok(None)`, and no other
  call does (`NoKeyIff`).

## Model

| member | source | states |
|---|---|---|
| MasterKey.JsonIsSound | src/crypto/master.rs:176-207 | the pretty-printed metadata text closes its object with its last character, so with a reader that reads it back and accepts only closed objects, no strict prefix of it reads as metadata |
| MasterKey.PrefixParses | src/crypto/master.rs:299-327 | a prefix of a committed text yields its metadata when it is the whole text and nothing otherwise |
| MasterKey.UnlockPrepared | src/crypto/master.rs:144-162 | metadata of a preparation unlocks exactly for the password it was prepared with, and to the key prepared then |
| MasterKey.LoadMeta | src/crypto/master.rs:299-327 | the retry loop returns the first attempt that reads as metadata, stops at the first read error other than a missing file, and otherwise reports what its last attempt saw |
| MasterKey.LoadedIsCommitted | src/crypto/master.rs:299-327 | when every attempt sees a prefix of a committed text, loading succeeds exactly when some attempt saw the whole, and then yields what was committed |
| MasterKey.UnlockAfterHistory | src/crypto/master.rs:144-223 | after every history of set, change, startup initialisation, removal and unlock, a password unlocks exactly when it is the one in force, to the key prepared at its commit |
| MasterKey.OldPasswordStaysDead | src/crypto/master.rs:210-223 | a changed or removed password does not unlock again, however often unlocking is tried |
| MasterKey.MasterPasswordManager.constructor | src/crypto/master.rs:48-59 | a manager is opened on a directory with any history of calls, whose file it finds |
| MasterKey.MasterPasswordManager.IsPasswordSet | src/crypto/master.rs:117-119 | a password is set exactly when the history leaves one in force |
| MasterKey.MasterPasswordManager.CommitPreparedPassword | src/crypto/master.rs:210-223 | the commit becomes the latest call of the history, of which the file stays the image |
| MasterKey.MasterPasswordManager.CommitPasswordRemoval | src/crypto/master.rs:289-297 | the removal becomes the latest call of the history, with or without a file |
| MasterKey.MasterPasswordManager.UnlockKey | src/crypto/master.rs:144-162 | unlocking succeeds exactly for the password in force and returns the key prepared at its commit |
| MasterKey.MasterPasswordManager.InitializeStartupPassword | src/crypto/master.rs:228-243 | afterwards a password is in force, the one that was in force stays so, and the key is returned exactly to its holder |
| KeyInitRace.StepKeepsInv | src/crypto/master.rs:228-273 | every step of either initialiser keeps the directory invariant and the process's own, and only lets files grow |
| KeyInitRace.NextKeepsInv | src/crypto/mod.rs:49-106 | no step of one process breaks what holds of the directory and of all others |
| KeyInitRace.RunKeepsInv | src/crypto/mod.rs:265-291 | the invariant holds in every state of every run from the empty directory |
| KeyInitRace.LoadAccepts | src/crypto/master.rs:299-327 | a read of master.json is accepted exactly when it returned the whole committed text, and then taken for what was committed; a torn one is retried or ends the call |
| KeyInitRace.PasswordIsFromKeyfile | src/crypto/mod.rs:71-106 | no torn keyfile leads to a password: whenever a process of a run holds a bootstrap password, the keyfile is complete, stays so, and the password was made from it |
| KeyInitRace.ReturnedForGood | src/crypto/master.rs:228-273 | a key that was returned stays returned in every continuation of the run |
| KeyInitRace.KeyAgreement | src/crypto/master.rs:228-273 | keys returned by any processes at any moments of any run are one key, that of the single committed preparation, which is complete on disk and which its password unlocks |
| KeyInitRace.CallEndsIff | src/crypto/master.rs:228-273 | in every run, a bootstrap call returns no key exactly when its first check found master.json or the file it lost against holds no bootstrap password; a call fails exactly when it crashed, ran out of attempts at a torn file, read the keyfile torn behind the loader, or holds another password |
| KeyInitRace.NoKeyIff | src/crypto/master.rs:248-272 | in every run of bootstrap calls, a call returns no key if and only if its first step found master.json, complete or not |
| KeyInitRace.LoserGetsWinnersKey | src/crypto/master.rs:241-269 | when all share one role and secret, a loser that reads the whole file goes on to unlock it and gets the winner's key |
| KeyInitRace.OneBootstrapPassword | src/crypto/master.rs:95-114 | the bootstrap passwords held by any two processes at any two moments of a run are one |
| StdioFraming.ReceiveKeepsStream | src/mcp/client.rs:538-555 | reading a message loses and reorders no bytes: buffer and unread input together are a suffix of what they were, a shorter one exactly when a message was read |
| StdioFraming.StdioSession.constructor | src/mcp/client.rs:455-503 | a new session has an empty buffer |
| StdioFraming.StdioSession.ReadMessage | src/mcp/client.rs:538-555 | the loop over the buffer returns the message, keeps the rest and leaves the unread input as the specification says |
| StdioFraming.StdioSession.AwaitReplyTo | src/mcp/client.rs:520-528 | replies with other ids are skipped until one carries the expected id, and buffer and input are those behind it |
| StdioFraming.LinesHaveNoHeaderEnd | src/mcp/client.rs:558-608 | a stream of good lines holds no blank header line, wherever it is cut |
| StdioFraming.ReceiveLine | src/mcp/client.rs:538-604 | from any buffer and reads that hold a line, the next message is that line, without a limit error, and the rest stays |
| StdioFraming.ReceiveLines | src/mcp/client.rs:538-604 | however a good stream is cut into reads of 1 to 4096 bytes, successive reads return exactly its lines in order |
| StdioFraming.ChunkingIndependence | src/mcp/client.rs:538-604 | two ways of cutting one stream into reads give the same messages |
| StdioFraming.FrameRoundTrip | src/mcp/client.rs:562-580 | header, blank line, body and any trailing bytes parse to that body and consume exactly the frame |
| StdioFraming.FramePrefix | src/mcp/client.rs:558-604 | of every strict prefix of a frame the parser waits without consuming, except that from the end of the first header line to the end of the blank line it takes that line for a line-delimited message, which fails unless the line is empty or a JSON text |
| StdioFraming.FrameIsReceivedIff | src/mcp/client.rs:538-580 | however a frame, with any number of header lines, and what follows it are cut into reads, the message is received if and only if no read ends between the end of the first header line and the end of the blank line; otherwise what is received is that line taken for a message |
| StdioFraming.ContentLengthLine | src/mcp/client.rs:610-621 | the printed header line announces exactly its number |
| McpSession.SendKeepsInv | src/mcp/client.rs:509-528 | sending a request with a fresh id keeps the ids increasing and the replies matched |
| McpSession.DeliverKeepsInv | src/mcp/client.rs:520-528 | handing a reply with the request's id to it keeps the replies matched |
| McpSession.RequestLog | src/mcp/client.rs:234-248 | a request adds at most its sending and its reply to the log, in this order, with its own id |
| McpSession.RequestKeepsInv | src/mcp/client.rs:234-281 | a request keeps the session invariant, whatever times out, fails or arrives |
| McpSession.CorrelationOverRuns | src/mcp/client.rs:141-281 | over all runs ids strictly increase, a reply is handed only to the request with its id, never a late one to a later request, and nothing but initialize is sent before initialize succeeded |
| McpSession.McpClient.constructor | src/mcp/client.rs:102-139 | a new client is uninitialised, has no session and starts with id 1 |
| McpSession.McpClient.EnsureSession | src/mcp/client.rs:448-503 | a server is started exactly when none runs, with an empty buffer |
| McpSession.McpClient.Request | src/mcp/client.rs:234-281 | result, id counter, session, buffer and log after a request are those of the specification |
| McpSession.McpClient.Notify | src/mcp/client.rs:250-259 | a notification carries no id and takes no reply |
| McpSession.McpClient.EnsureInitialized | src/mcp/client.rs:141-164 | the handshake runs once; it counts as done when initialize succeeded, whatever becomes of the notification |
| McpSession.CompleteCallsAnswerTheirRequests | src/mcp/client.rs:166-232 | a complete call hands back the replies to its own requests, with consecutive ids, in order, of which only the last ends the listing |
| McpSession.McpClient.Perform | src/mcp/client.rs:166-232 | a call initialises first and then requests page after page until there are no more or one fails; it hands back the pages or the error |
| McpSession.AllServedIff | src/mcp/client.rs:141-164 | over all runs, everything but initialize goes to a process that has answered initialize if and only if no request or notification behind the successful initialize finds the server exited and starts it again |
| McpSession.RestartedServerIsNotInitialized | src/mcp/client.rs:448-460 | a run in which a restarted server is sent a call without having been initialised |
| McpSession.BadMessageStays | src/mcp/client.rs:538-604 | after a message that cannot be accepted, malformed or too long, every later request to the process fails the same way, whatever arrives |
| McpSession.StuckIff | src/mcp/client.rs:538-604 | all requests fail and leave the buffer as it is, with any id and whatever arrives, if and only if the text at its start cannot be accepted |
| McpSession.FailsForGoodIff | src/mcp/client.rs:520-555 | a request fails for all that may still arrive if and only if it fails on what is in the buffer already |
| McpSession.StuckProcessFailsAll | src/mcp/client.rs:234-281 | every request of the client to such a process ends with that error and leaves the session as it is |
| GraphqlScanner.ReadConstruct | src/custom_apis/mod.rs:2596-2679 | one round of the scanning loop skips exactly the construct at the index and yields its kind and the brace depth behind it |
| GraphqlScanner.OperationKinds | src/custom_apis/mod.rs:2589-2682 | the loop yields the kinds the scanner finds in the text |
| GraphqlScanner.DocumentIsReadOnlyQuery | src/custom_apis/mod.rs:2577-2587 | read-only means some query and neither mutation nor subscription among the kinds |
| GraphqlDocuments.ScanPieces | src/custom_apis/mod.rs:2589-2682 | on printed tokens with strings, nested braces, ignored characters between them and any number of block strings, each harmless at its own depth, the scanner finds what the tokens show it and goes on behind them at the depth they began |
| GraphqlDocuments.SeenPiecesIff | src/custom_apis/mod.rs:2577-2587 | what it finds there writes exactly when a token at depth 0 does, and holds a query when one of them is |
| GraphqlDocuments.Classification | src/custom_apis/mod.rs:2577-2682 | every printed document whose block strings, however many and however deep, are harmless where they stand is classified as read-only exactly when it is declared so and no name in front of a selection set spells mutation or subscription |
| GraphqlDocuments.ClassificationAgreesIff | src/custom_apis/mod.rs:2577-2682 | among these documents the verdict differs from the declaration exactly for read-only ones with such a stray name; none of them that writes is classified as read-only |
| GraphqlDocuments.QueryNamedMutation | src/custom_apis/mod.rs:2655-2676 | every query whose name spells mutation is misclassified |
| GraphqlDocuments.MutationIsSuchAName | src/custom_apis/mod.rs:2655-2676 | a concrete such name |
| GraphqlAutomaton.ScanIsRun | src/custom_apis/mod.rs:2589-2682 | the scanner with its lookahead finds what an automaton finds that reads one character at a time |
| GraphqlDocuments.PlainIsHarmless | src/custom_apis/mod.rs:2609-2630 | a block string without escaped triple quotes leaves the scanner as it was, at every depth |
| GraphqlDocuments.PlainPiecesAreHarmless | src/custom_apis/mod.rs:2609-2630 | so documents without escaped triple quotes are among those classified above |
| EscapedBlocks.HarmlessIff | src/custom_apis/mod.rs:2609-2630 | whatever stands in front of it, a block string in the head of a definition or in selection sets however deep leaves the scanner outside strings and comments, at its depth and without a keyword found, if and only if every document that goes on behind it, with harmless block strings, is classified as it should be |
| EscapedBlocks.HarmlessIffEven | src/custom_apis/mod.rs:2609-2630 | at every brace depth but 0, with no quotes, braces or comments of its own a block string is harmless if and only if it holds an even number of escaped triple quotes |
| EscapedBlocks.OddEscapesHideMutation | src/custom_apis/mod.rs:2577-2682 | with an odd number, in any selection set, however deep, of any document that reads up to it, a document with a mutation behind it is classified as read-only |
| EscapedBlocks.MutationIsHidden | src/custom_apis/mod.rs:2577-2682 | wherever a block string leaves the scanner in a string or comment or too deep, behind a query, a mutation behind it is not seen |
| EscapedBlocks.SelectionIsHidden | src/custom_apis/mod.rs:2577-2682 | where no query was seen before, the selection set behind such a block string is not seen, and a document that only reads is not read-only |
| EscapedBlocks.ReadingIsRefused | src/custom_apis/mod.rs:2577-2682 | wherever a block string ends braces too many or shows the scanner a keyword, some document that only reads is classified as writing |
| EscapedBlocks.BraceEndsSelection | src/custom_apis/mod.rs:2609-2647 | a concrete legal block string that ends one brace too many at every depth but 0 |
| EscapedBlocks.DocumentIsOk | src/custom_apis/mod.rs:2577-2682 | the documents of these results are printed from tokens like any other, and fall under the classification when the block string is harmless |
| CurlImport.TokenizeCurl | src/custom_apis/mod.rs:2684-2719 | the tokenizer loop computes the tokens of the specification |
| CurlImport.TokensOfCommand | src/custom_apis/mod.rs:2684-2719 | words printed in either quote with escapes and separated by white space come back, the empty ones excepted |
| CurlImport.ParseCurlTokens | src/custom_apis/mod.rs:1442-1518 | the flag loop over the tokens computes the fields of the specification |
| CurlImport.ReadArguments | src/custom_apis/mod.rs:1450-1514 | a flag's value is never itself read as a flag or a URL: the loop applies exactly the arguments, in order |
| CurlImport.CurlRoundTrip | src/custom_apis/mod.rs:1438-1518 | a request with headers, body and URL comes back from its command line |
| CurlImport.CurlRoundTripIff | src/custom_apis/mod.rs:1438-1518 | it does so if and only if method and body are not empty strings |
| OperationDrafts.SanitizeId | src/custom_apis/mod.rs:2378-2393 | ids come out in one normal form and ids in that form unchanged |
| OperationDrafts.NormalizeOperationDraft | src/custom_apis/mod.rs:2243-2266 | the sequence of field updates computes the normal draft |
| OperationDrafts.NormalizeGraphqlOperationContract | src/custom_apis/mod.rs:2268-2325 | the GraphQL updates, with their early return, compute the contract of the specification |
| OperationDrafts.DraftContract | src/custom_apis/mod.rs:2243-2325 | a normal draft has a slug, a leading slash, a required body when it declares one, and on a GraphQL POST a content type and a required body parameter |
| OperationDrafts.NormalizedTwiceIff | src/custom_apis/mod.rs:2243-2325 | a second normalisation changes nothing if and only if the name is stable, in particular when it is not blank |
| GroupMerge.BuildGroups | src/custom_apis/mod.rs:958-963 | the map holds for every key the ascending indices of its operations |
| GroupMerge.MergeGroups | src/custom_apis/mod.rs:954-1020 | the loops with their early return compute the merged list |
| GroupMerge.MergeLoop | src/custom_apis/mod.rs:1004-1019 | each merged group is emitted once, at its first member; all else is copied |
| GroupMerge.ResultPositions | src/custom_apis/mod.rs:1004-1019 | every element of the result stands at the place of one original, in the same order |
| GroupMerge.SecondMergedKeys | src/custom_apis/mod.rs:964-977 | a second pass replaces exactly the groups whose replacement must itself be replaced |
| GroupMerge.MergedTwiceIff | src/custom_apis/mod.rs:954-1020 | merging twice is merging once if and only if each of these replacements is replaced by itself |
| LegacyCollapse.NormalizeConfig | src/custom_apis/mod.rs:940-952 | normalising each draft and then merging computes the normal configuration |
| LegacyCollapse.GenericShape | src/custom_apis/mod.rs:1039-1078 | the replacement of a group is a GraphQL POST with a content type and a required body parameter, and is already normal |
| LegacyCollapse.GroupReplacement | src/custom_apis/mod.rs:1039-1078 | a replacement keeps the key of its group, is read-only exactly when all members are, and is itself legacy exactly when its id has a slug |
| LegacyCollapse.CollapseResult | src/custom_apis/mod.rs:954-1020 | every merged group becomes one operation at its first member's place, all others keep content and order, no two share a group, and nothing is lost |
| LegacyCollapse.CollapseTwiceIff | src/custom_apis/mod.rs:954-1078 | collapsing normalised operations, whatever their names, twice is collapsing once unless several groups are merged and exactly one leaves a slug |
| LegacyCollapse.NormalizedConfigTwiceIff | src/custom_apis/mod.rs:940-1078 | the whole normaliser changes nothing a second time if and only if the names of the operations that are not merged are stable and the number of merged groups with a slug is not one among several |
| RequestContract.DocumentHasOperationSignal | src/core/request_contract.rs:89-108 | there is a signal exactly when an operation keyword stands somewhere that no letter, digit or underscore continues and that has at most digits directly in front |
| RequestContract.KeywordIsSeen | src/core/request_contract.rs:89-108 | every such keyword is seen, wherever it stands |
| RequestContract.NormalizeRequestShape | src/core/request_contract.rs:124-160 | method, body and content type after the updates are those of the normal shape |
| RequestContract.ShapeTwice | src/core/request_contract.rs:110-160 | a second pass keeps method and body and adds no second content type; a GraphQL request never keeps a bodiless method or a bare operation for a body |
| RequestContract.MethodCarriesBody | src/core/request_contract.rs:124-160 | the method of a GraphQL request can carry a body |
| RecordExtraction.IterJsonValues | bridges/gepa_optimizer/__main__.py:124-140 | the scan, whose index strictly increases, yields the values of the specification |
| RecordExtraction.AppendUniqueRecords | bridges/gepa_optimizer/__main__.py:143-173 | appending with the early stop gives the first 64 of the order-preserving removal of duplicates |
| RecordExtraction.CapIsPrefix | bridges/gepa_optimizer/__main__.py:176-198 | adding in portions and stopping at the cap gives the first records of the whole |
| RecordExtraction.DedupMeaning | bridges/gepa_optimizer/__main__.py:143-173 | what is added is exactly the records at the positions that hold their key for the first time, in order |
| RecordExtraction.DedupIsDistinct | bridges/gepa_optimizer/__main__.py:143-173 | no two records kept share a key |
| RecordExtraction.DedupKeepsKeys | bridges/gepa_optimizer/__main__.py:143-173 | no key is lost |
| RecordExtraction.CandidateRecordsFromValue | bridges/gepa_optimizer/__main__.py:99-121 | the recursion text, value, nested text ends, by length of the text first and the value second, and collects the records of the specification |
| RecordExtraction.ExtendFromFields | bridges/gepa_optimizer/__main__.py:105-113 | the loop over the fields adds the records of all nested objects and lists behind those found before |
| RecordExtraction.RecordsFromItems | bridges/gepa_optimizer/__main__.py:114-120 | the loop over a list stops once 64 records are found |
| RecordExtraction.RecordsFromLines | bridges/gepa_optimizer/__main__.py:180-194 | the line pass either has the final result or leaves exactly the rest to the scan |
| RecordExtraction.RecordsFromScan | bridges/gepa_optimizer/__main__.py:195-198 | the scan pass completes the result |
| RecordExtraction.RecordsFromText | bridges/gepa_optimizer/__main__.py:176-198 | with both early exits the result is exactly the first 64 of all records of line pass and scan pass without duplicates |
| RecordExtraction.CappedDedup | bridges/gepa_optimizer/__main__.py:143-198 | the capped result is distinct, in order of first occurrence, and complete below the cap |
| RecordExtraction.TextRecords | bridges/gepa_optimizer/__main__.py:176-198 | so is what any text yields |
| RecordExtraction.ArrayStopsEarly | bridges/gepa_optimizer/__main__.py:114-120 | items behind the first 64 records of a list are never looked at, even if those were duplicates |
| TrainingCompaction.TrainingTextIsClipped | bridges/gepa_optimizer/__main__.py:570-575 | a cut text keeps its first 480 characters and nothing more in front of the note |
| TrainingCompaction.CompactNodes | bridges/gepa_optimizer/__main__.py:582-613 | what is left of any value has a number of nodes bounded by the depth alone |
| TrainingCompaction.CompactIsBounded | bridges/gepa_optimizer/__main__.py:582-613 | from the top never more than 6290 nodes, from depth 2 never more than 98 |
| TrainingCompaction.KeptClipped | bridges/gepa_optimizer/__main__.py:595-601 | an object's result is clipped exactly when its kept fields are, but for one overwritten by the count |
| TrainingCompaction.ClippedIff | bridges/gepa_optimizer/__main__.py:570-613 | every string left has at most 480 original characters if and only if the names shown in summaries have |
| TrainingCompaction.LongNameComesOutWhole | bridges/gepa_optimizer/__main__.py:588-594 | a value whose compaction holds an uncut string of 481 characters |
| TrainingCompaction.SmallIsUnchanged | bridges/gepa_optimizer/__main__.py:582-613 | a value within all limits is returned as it is |
| ChannelNames.Sanitize | src/custom_messaging_channels/mod.rs:1010-1060 | both sanitizer loops compute the sanitized name |
| ChannelNames.SanitizedIsSlug | src/custom_messaging_channels/mod.rs:1010-1060 | sanitized names have a colon-free normal form, names in it are exactly those left unchanged, so both are idempotent |
| ChannelNames.SanitizedLetters | src/custom_messaging_channels/mod.rs:1010-1060 | no ASCII letter or digit is lost or moved |
| ChannelNames.StorageTargetIsInjective | src/custom_messaging_channels/mod.rs:150-157 | two slots are one exactly when sanitized channel and field are |
| ChannelNames.OwnSlotsAreDisjoint | src/custom_messaging_channels/mod.rs:150-157 | a slot lies in the namespace of one channel only |
| ChannelAuth.NormalizeStorageTargets | src/custom_messaging_channels/mod.rs:649-690 | the updates, refused for a blank key, compute the normal manifest |
| ChannelAuth.NormalModeTwice | src/custom_messaging_channels/mod.rs:649-690 | normalising a manifest again changes nothing |
| ChannelAuth.NormalModeIsOwn | src/custom_messaging_channels/mod.rs:649-749 | a normal manifest names and requires slots of its own channel only |
| ChannelAuth.FlowSlotsAreDistinct | src/custom_messaging_channels/mod.rs:675-683 | the parts of an OAuth flow do not overwrite each other: each has a slot of its own |
| ChannelAuth.CodeKeysAreDistinct | src/custom_messaging_channels/mod.rs:675-690 | the five keys of the code are sanitized to five different ones |
| ChannelAuth.StoreManifestValues | src/custom_messaging_channels/mod.rs:751-778 | the slot-by-slot loop with its early exit computes the stored secrets and the missing field |
| ChannelAuth.ClearManifestSecrets | src/custom_messaging_channels/mod.rs:780-790 | exactly the slots of the manifest are removed |
| ChannelAuth.StoreReportsMissing | src/custom_messaging_channels/mod.rs:761-769 | storing fails exactly when a required field has no value that is not blank, and names the first |
| ChannelAuth.StoreWritesGiven | src/custom_messaging_channels/mod.rs:761-777 | each slot gets the trimmed value given for its field, up to the first missing one; the others are untouched |
| ChannelAuth.StoreConfigures | src/custom_messaging_channels/mod.rs:491-509 | storing without a missing field configures the channel, up to the access token of a hybrid one |
| ChannelAuth.SecretsFrame | src/core/connectivity/auth/integration_auth.rs:304-336 | storing and clearing touch no other slot, and clearing leaves none of the manifest's |
| ChannelStore.ChannelStore.constructor | src/custom_messaging_channels/mod.rs:984-993 | without stored data there are no channels |
| ChannelStore.ChannelStore.Upsert | src/custom_messaging_channels/mod.rs:185-303 | outcome and new state are those of the specification; a refused request changes nothing |
| ChannelStore.ChannelStore.Delete | src/custom_messaging_channels/mod.rs:324-343 | the channel and the slots of its manifest go, if there is one |
| ChannelStore.ChannelStore.LoadCredentials | src/custom_messaging_channels/mod.rs:312-318 | the manifest is read, or it is reported that there is no channel or no manifest |
| ChannelStore.ChannelStore.WriteCredentials | src/custom_messaging_channels/mod.rs:751-778 | the slots of the manifest that was read are written, also half-way when a field is missing; configurations stay |
| ChannelStore.ChannelStore.BeginTest | src/custom_messaging_channels/mod.rs:352-382 | a test is accepted only for a configured channel outside its cooldown, and its start is remembered |
| ChannelStore.ChannelStore.FinishTest | src/custom_messaging_channels/mod.rs:423-433 | the outcome is recorded together with the start time of the finished test |
| ChannelIsolation.ApplyKeepsInv | src/custom_messaging_channels/mod.rs:185-343 | every operation keeps ids non-empty, normal and distinct and manifests normal |
| ChannelIsolation.RunKeepsInv | src/custom_messaging_channels/mod.rs:185-343 | so does every run |
| ChannelIsolation.SortedKeysAre | src/custom_messaging_channels/mod.rs:600-615 | the fields made from drafts and references are every non-empty sanitized key once, in ascending order |
| ChannelIsolation.DerivedManifestIsAccepted | src/custom_messaging_channels/mod.rs:600-647 | a manifest made from drafts is never refused |
| ChannelIsolation.ApplyIsOwn | src/custom_messaging_channels/mod.rs:751-790 | no operation touches a slot outside its own channel's namespace |
| ChannelIsolation.ApplyKeepsOthers | src/custom_messaging_channels/mod.rs:185-433 | no operation changes the configuration of another channel |
| ChannelIsolation.RunIsolation | src/custom_messaging_channels/mod.rs:185-433 | however long a run, a channel no operation is about keeps its configuration and all its secrets |
| ChannelIsolation.RunKeepsConfigured | src/custom_messaging_channels/mod.rs:491-509 | and it stays as usable as it was |
| ChannelIsolation.AcceptedUpsertIsFound | src/custom_messaging_channels/mod.rs:202-302 | an accepted request changes its channel in place or adds it last, keeps creation time and test record, and leaves every other entry where it was |
| ChannelIsolation.LoadedModeIsOk | src/custom_messaging_channels/mod.rs:312-318 | a manifest read in a reachable state is one of its channel for good, whatever happens before it is used |
| ChannelIsolation.StoredCredentialsTakeEffect | src/custom_messaging_channels/mod.rs:305-322 | accepted credentials are found in the slots of the manifest that was read and configure the channel with it, up to an access token |
| ChannelIsolation.DeletedIsGone | src/custom_messaging_channels/mod.rs:324-343 | after a delete there is no such channel |
| ChannelIsolation.DeleteLeavesNothingIff | src/custom_messaging_channels/mod.rs:324-343 | at the moment of deletion no secret of the channel is left if and only if all were in slots its last manifest names |
| ChannelIsolation.StaysEmptyIff | src/custom_messaging_channels/mod.rs:185-343 | over every run from an empty namespace, it stays empty at every moment if and only if no event stores credentials of the channel with a value given in front of the first missing required field |
| ChannelIsolation.DeletedSecretsStayGoneIff | src/custom_messaging_channels/mod.rs:305-343 | over every run that starts with the deletion, none of the secrets of the channel is there at any moment behind it if and only if all were in slots its last manifest names and nothing is stored for it behind the deletion |
| ChannelIsolation.DroppedSecretOutlivesChannel | src/custom_messaging_channels/mod.rs:264-272 | a secret whose field was dropped by a change survives that change, even a clearing one, and the deletion |
| ChannelIsolation.CredentialsSurviveDelete | src/custom_messaging_channels/mod.rs:305-343 | credentials whose manifest was read before a deletion and which are written behind it survive it |
| ChannelTests.CooldownIff | src/custom_messaging_channels/mod.rs:918-931 | a test is refused exactly within 30 seconds of the last start, with seconds cut towards zero |
| ChannelTests.CooldownWait | src/custom_messaging_channels/mod.rs:918-931 | the seconds named in a refusal are the least whole number after which the test is accepted |
| ChannelTests.UpsertKeepsTest | src/custom_messaging_channels/mod.rs:285-293 | changing a channel keeps the record of its last test |
| ChannelTests.SafeIff | src/custom_messaging_channels/mod.rs:370-382 | at any moment, no continuation without a finish accepts a test within 30 seconds of another if and only if the newest start is the one remembered or 30 seconds ago |
| ChannelTests.AlwaysSafeIff | src/custom_messaging_channels/mod.rs:345-439 | over runs with arbitrary finish times, this is so at every moment if and only if every test that finishes is the newest or finishes 30 seconds behind the newest start |
| ChannelTests.TestsAreSpaced | src/custom_messaging_channels/mod.rs:345-439 | for every interleaving in which tests end within 30 seconds, accepted starts are 30 seconds apart and at no moment is more than one test in flight |
| ChannelTests.LateFinishEndsCooldown | src/custom_messaging_channels/mod.rs:423-433 | a run in which a late finish lets a third test start at the time of the second |
| MessageSplitter.LastNewline | bridges/whatsapp-bridge/index.js:122-124 | the last line end at or before the index, or -1 |
| MessageSplitter.Split | bridges/whatsapp-bridge/index.js:112-129 | the loop computes the chunks of the specification |
| MessageSplitter.SplittingConserves | bridges/whatsapp-bridge/index.js:112-129 | the chunks of a non-empty text are the text, have 1 to 4001 units, all but the last at least 2002, and are at most (n-1)/2002 + 1 |
| MessageSplitter.ChunksEndWell | bridges/whatsapp-bridge/index.js:119-127 | every chunk but the last ends behind the last line end in the second half of the limit, or has exactly 4000 units and there is none |
| MessageSplitter.PairsAreTornAtTheLimitOnly | bridges/whatsapp-bridge/index.js:119-127 | a chunk other than the last that ends in a high surrogate has exactly 4000 units |
| MessageSplitter.PairIsTornIff | bridges/whatsapp-bridge/index.js:119-127 | a border between chunks tears a surrogate pair if and only if more than 4000 units were left, the pair lies at the indexes 3999 and 4000 of them, and no line end at the indexes 2001 to 4000 |
| MessageSplitter.TornEmoji | bridges/whatsapp-bridge/index.js:112-129 | a concrete text whose emoji is torn |
| ActionErrors.DomainComesBack | src/actions/mod.rs:235-272 | every domain reads back from its key |
| ActionErrors.ReasonComesBack | src/actions/mod.rs:297-343 | every reason reads back from its key |
| ActionErrors.ErrorRoundTrip | src/actions/mod.rs:345-371 | the text of an error with any message parses to that error |
| ActionErrors.RenderIsInjective | src/actions/mod.rs:345-371 | two errors with one text are one |
| ActionErrors.ParsedTextIsStable | src/actions/mod.rs:524-534 | what parsing yields is printed to a text that parses to it again |
| ActionErrors.EnsureTwice | src/actions/mod.rs:536-543 | making sure a text is structured is idempotent on every string, under any action names |
| ActionErrors.EnsuredParsesIff | src/actions/mod.rs:536-543 | the result parses if and only if the text did or did not begin as an error |
| ActionErrors.PrefixAloneIsNotParsed | src/actions/mod.rs:520-543 | the bare prefix is passed on and does not parse |

## Left out

- Argon2, base64, AES-GCM, hexadecimal decoding of foreign metadata beyond its error: library code; Argon2 is a function injective in the password for one salt.
- File permissions, Windows ACLs, fsync, sleeps and real time: only create, write, read, replace, remove and a clock value are modelled; the number of read attempts is kept.
- StdioFraming.ReceiveLines: takes buffer sizes as unbounded numbers; `max_response_bytes * 2` and `body_start + content_len` wrap in the code for limits near the size of `usize`.
- StdioFraming.FrameIsReceivedIff: is about frames that fit the buffer: header, blank line and one read within `max_response_bytes`.
- McpSession.CorrelationOverRuns: covers the stdio transport; over HTTP the client does not compare ids at all.
- McpSession.McpClient.Perform: takes method name, page test and what happens to each request as given and hands back whole replies; request parameters and the decoding of results are left out.
- GraphqlDocuments.Classification: is about documents printed from tokens, whose block strings are harmless where they stand; unfinished documents have no declared meaning to compare with.
- EscapedBlocks.HarmlessIff: the other block strings of the documents are harmless, since two harmful ones may make up for each other, and no further quote stands directly behind the block string.
- EscapedBlocks.HarmlessIffEven: is about selection sets; in front of one, at depth 0, text behind an escape can also spell a keyword, and `HarmlessIff` alone decides.
- CurlImport.CurlRoundTrip: stops at the fields the flag loop leaves; URL parsing, the POST default for a body without a method and the source built from the fields are left out.
- OperationDrafts.NormalizeOperationDraft: keeps a default body as its JSON text; that the text of a parsed body is stable is JSON's matter.
- LegacyCollapse.NormalizedConfigTwiceIff: takes the two description texts of a replacement as trimmed parameters; the other fields of a configuration, which `normalize_config` does not touch, are left out.
- RequestContract.NormalizeRequestShape: takes whether a content type is there, and the GraphQL signal of endpoint or body, as given.
- RecordExtraction.RecordsFromText: takes `_normalize_candidate_record`, `json.loads`, `raw_decode` and `json.dumps` as given functions; of the decoders only that decoded strings are shorter than their text and no more is consumed than is there.
- TrainingCompaction.CompactNodes: keys are no nodes; values are JSON values, as the export is read with `json.load`.
- ChannelStore.ChannelStore.Upsert: the checks of the send specification and its rewriting, URL and entropy rules, are given by their outcome; labels and other display texts of fields are left out.
- ChannelStore.ChannelStore.BeginTest: last start times are numbers or absent; the code takes a stored time it cannot parse for absent. Failures of storage and of the secret store are left out.
- ChannelTests.TestsAreSpaced: demands that a test ends before 30 seconds are over; at exactly 30 seconds `LateFinishEndsCooldown` applies.
- ActionErrors.EnsureTwice: the table from action names to domains is any function.
- The callers in `src/lib.rs`, HTTP and database access, LLM calls, OpenAPI, YAML and HTML parsing, secret detection, the web frontend and the CLI: plumbing around libraries or finite tables.
- `src/clients/internal_auth.rs`: a weaker copy of the key race.
