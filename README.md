# KOllama core, modelled in Dafny

KOllama is a Kotlin Multiplatform chat client for a local Ollama server. This project models the parts of it that hold logic, and proves what they promise:

- **The job manager** (`JobManager`): `ChatJobManager` keeps at most `MAX_CONCURRENT_CHATS` = 5 streaming chat jobs, ordered by recent use in a hand-written `DoublyLinkedList`. Adding a sixth job cancels and evicts the least recently used one. The classes keep their nodes, links and map. They are proved to refine an abstract registry: an order of ids plus the set of active ids.
- **The shared view model** (`Segmentation`, `Conversation`, `CommonViewModel`): the `<think>`/`</think>` segmentation of streamed chunks (`processMessageChunk`), the collector of `sendMessage` with its catch and finally, the 20-message request window, session titles, `updateMessage`, `renameSession`, `retryMessage`, the observers and `cleanupInactiveSessions`.
- **The desktop view model** (`JvmViewModel`): the same segmentation inlined in `sendMessage`, the final SENT/ERROR update, the thinking indicator, titles, rename and retry.
- **The shared service's stream decoders** (`StreamDecoder`): the line loops of `chat` and `generate`, their error mappings and `toChatMessage`.
- **The desktop service's raw-socket HTTP client**:
  - `HttpMessage`: `buildHttpRequest` and `extractResponseBody`, with the round trip between them;
  - `Transport`: the line reader;
  - `ChunkedReader`: the chunked reader of `processResponse`;
  - `Retry`: `executeWithRetry`;
  - `DesktopService`: the per-session history of `chat`, `closeConnection`, and `chat` run under the retry;
  - `DesktopAnswer`: what the desktop view model makes of the service's stream.
- **Markdown** (`Markdown`): `MarkdownFixer`'s `analyzeText`, `calculateNewlines`, `calculateIndent`, `determineFormatting` with the `should*` helpers, and the fence pass of `cleanupFormatting`.
- **Storage mappings** (`Storage`): the conversions between database rows and domain models, with their round trips.
- **The model picker's descriptions** (`ModelDescription`).

`Text` holds the Kotlin string functions the code relies on. `Wrappers` holds `Option` and `Result`, and `Ids` the id type.

The following are parameters of the model rather than computed by it:

- JSON encoding and decoding: a partial decode function;
- the regular-expression searches and the cleanup rewriting chain;
- random ids and the clock;
- whether a socket opens;
- what the server replies.

Delays are returned as a list of durations. Coroutines run one after another, in the order the code awaits them.

Behaviour the model keeps as the code has it, each stated by a member:

- A short HTTP body is padded with NUL characters up to its `Content-Length` (`HttpMessage.Padded`, `HttpMessage.ReadExactly`).
- The desktop service stores the assistant's answer in the history with a leading `</think>` (`DesktopService.StoredAnswer`).
- The desktop service never updates the context it sends (`DesktopService.DesktopOllamaService.ChatAttempt`, which keeps the context unchanged).
- A failed attempt forgets the session, so a retry sends only the prompt (`DesktopService.RetryForgetsHistory`).
- A retry emits the thinking placeholder a second time (`DesktopService.RetryRepeatsPlaceholder`).
- A desktop session title can be blank (`JvmViewModel.JvmTitleMayBeBlank`).
- A `<think>` marker split across two chunks is not recognised (`Segmentation.SplitMarkerNotRecognised`).
- A markdown header's depth is always 1 (`Markdown.HeaderDepthIsOne`).

## Model

| member | source | states |
|---|---|---|
| Text.SubstringBefore | composeApp/src/commonMain/kotlin/com/kashif/kollama/presentation/state/ChatViewModel.kt:308 | `substringBefore`: the text up to the first occurrence of the delimiter, which occurs right after it; all of the text when there is none |
| Text.SubstringAfter | composeApp/src/commonMain/kotlin/com/kashif/kollama/presentation/state/ChatViewModel.kt:317 | `substringAfter`: the text after the first occurrence, so that before, delimiter and after rebuild the text; all of it when there is none |
| Text.Take | composeApp/src/commonMain/kotlin/com/kashif/kollama/presentation/state/ChatViewModel.kt:166 | `take(n)`: a prefix of length `min(n, length)` |
| Text.TrimStart | composeApp/src/jvmMain/kotlin/com/kashif/deepseek/presentation/MarkdownFixer.kt:105 | `trimStart()`: a suffix that starts with no whitespace, everything cut being whitespace |
| Text.TrimEnd | composeApp/src/jvmMain/kotlin/com/kashif/deepseek/presentation/MarkdownFixer.kt:104 | `trimEnd()`: a prefix that ends with no whitespace, everything cut being whitespace |
| Text.Lines | composeApp/src/jvmMain/kotlin/com/kashif/deepseek/presentation/MarkdownFixer.kt:103 | `lines()`: at least one line, none holding a line break |
| Text.ParseInt | composeApp/src/jvmMain/kotlin/com/kashif/deepseek/data/local/service/OllamaService.kt:124 | `toInt()`: a value only within the 32-bit range |
| Text.ParseHex | composeApp/src/jvmMain/kotlin/com/kashif/deepseek/data/local/service/OllamaService.kt:175 | `toInt(16)` on hex digits: a value only within the 32-bit range |
| Text.NatToString | composeApp/src/jvmMain/kotlin/com/kashif/deepseek/data/local/service/OllamaService.kt:100 | the decimal digits a length is written with: at least one, all decimal |
| Text.NatToStringValue | composeApp/src/jvmMain/kotlin/com/kashif/deepseek/data/local/service/OllamaService.kt:100 | the printed digits read back as the number |
| Text.ParseIntOfNatToString | composeApp/src/jvmMain/kotlin/com/kashif/deepseek/data/local/service/OllamaService.kt:100-124 | the `Content-Length` the request writes is read back by `toInt()` as the same number |
| Text.IsWhitespace | composeApp/src/jvmMain/kotlin/com/kashif/deepseek/presentation/MarkdownFixer.kt:132 | definition of Kotlin's `isWhitespace()`: the controls U+0009-U+000D and U+001C-U+001F, the space, the other space separators (U+00A0, U+1680, U+2000-U+200A, U+202F, U+205F, U+3000) and U+2028, U+2029 |
| Text.Trim | composeApp/src/jvmMain/kotlin/com/kashif/deepseek/presentation/MarkdownFixer.kt:170 | definition of `trim()`: leading and then trailing whitespace removed |
| Text.FirstBreak | composeApp/src/jvmMain/kotlin/com/kashif/deepseek/data/local/service/OllamaService.kt:120 | where `readLine` ends a line: the index of the first `\n` or `\r`, with no break before it; none exactly when the text has no break |
| JobManager.AddJobCoherent | composeApp/src/commonMain/kotlin/com/kashif/kollama/presentation/utils/JobManager.kt:105-124 | for a session with no entry, `addJob` keeps the registry coherent (list and map hold the same distinct ids, at most `MAX_CONCURRENT_CHATS` = 5); at capacity exactly the least recently used id leaves |
| JobManager.GetJobStateCoherent | composeApp/src/commonMain/kotlin/com/kashif/kollama/presentation/utils/JobManager.kt:126-132 | moving an active id to the front keeps the registry coherent |
| JobManager.RemoveJobCoherent | composeApp/src/commonMain/kotlin/com/kashif/kollama/presentation/utils/JobManager.kt:134-141 | removing an id keeps the registry coherent and leaves the id inactive |
| JobManager.EvictedCoherent | composeApp/src/commonMain/kotlin/com/kashif/kollama/presentation/utils/JobManager.kt:107-113 | dropping the least recently used id keeps the registry coherent |
| JobManager.AddJobReplacingCoherent | composeApp/src/commonMain/kotlin/com/kashif/kollama/presentation/utils/JobManager.kt:105-124 | corrected `addJob` (previous entry removed first): stays coherent for every id, new or already active |
| JobManager.DuplicateAddListsTwice | composeApp/src/commonMain/kotlin/com/kashif/kollama/presentation/utils/JobManager.kt:105-124 | as written, adding the same session twice lists it twice in the LRU list but gives it one map entry |
| JobManager.DuplicateAddFills | composeApp/src/commonMain/kotlin/com/kashif/kollama/presentation/utils/JobManager.kt:105-124 | three further sessions then fill the map to 5 entries with 6 list nodes |
| JobManager.DuplicateAddEvictsLive | composeApp/src/commonMain/kotlin/com/kashif/kollama/presentation/utils/JobManager.kt:107-113 | the next new session evicts the stale node of the duplicated session, taking its live entry (and cancelling its job) |
| JobManager.DuplicateAddOverflows | composeApp/src/commonMain/kotlin/com/kashif/kollama/presentation/utils/JobManager.kt:107-113 | the eviction after that removes a node whose session has no entry, so nothing leaves the map |
| JobManager.DuplicateAddExceedsCapacity | composeApp/src/commonMain/kotlin/com/kashif/kollama/presentation/utils/JobManager.kt:105-124 | as written, a duplicate `addJob` lets the map grow to six active sessions, above `MAX_CONCURRENT_CHATS` |
| JobManager.AfterAddJob | composeApp/src/commonMain/kotlin/com/kashif/kollama/presentation/utils/JobManager.kt:105-124 | definition of `addJob` on the registry: when the map is full and the id has no entry, the last-listed id leaves both the list and the map; then the id goes to the front of the list and gets an entry, even when it already had one |
| JobManager.AfterGetJobState | composeApp/src/commonMain/kotlin/com/kashif/kollama/presentation/utils/JobManager.kt:126-132 | definition of `getJobState` on the registry: an id with an entry moves to the front of the list; otherwise nothing changes |
| JobManager.AfterRemoveJob | composeApp/src/commonMain/kotlin/com/kashif/kollama/presentation/utils/JobManager.kt:134-141 | definition of `removeJob` on the registry: an id with an entry loses it and its first place in the list; otherwise nothing changes |
| JobManager.DuplicateAddThenRemoveLeavesStale | composeApp/src/commonMain/kotlin/com/kashif/kollama/presentation/utils/JobManager.kt:105-141 | two `addJob` calls for one id and then `removeJob` for it leave the id with no entry but still listed once, so the list and the map no longer agree |
| JobManager.Node.constructor | composeApp/src/commonMain/kotlin/com/kashif/kollama/presentation/utils/JobManager.kt:7-11 | a new node holds its value and has no neighbours |
| JobManager.DoublyLinkedList.constructor | composeApp/src/commonMain/kotlin/com/kashif/kollama/presentation/utils/JobManager.kt:13-16 | an empty list: no head, no tail, size 0 |
| JobManager.DoublyLinkedList.PushFront | composeApp/src/commonMain/kotlin/com/kashif/kollama/presentation/utils/JobManager.kt:43-47 | a detached node is linked in as the new head, in front of the old node sequence; size grows by one |
| JobManager.DoublyLinkedList.AddToFront | composeApp/src/commonMain/kotlin/com/kashif/kollama/presentation/utils/JobManager.kt:18-30 | a fresh node holding the value becomes the head, the old nodes follow in order, size grows by one |
| JobManager.DoublyLinkedList.MoveToFront | composeApp/src/commonMain/kotlin/com/kashif/kollama/presentation/utils/JobManager.kt:32-48 | the node becomes the head, the other nodes keep their relative order, size is unchanged; nothing moves when it is already the head |
| JobManager.DoublyLinkedList.NeighboursListed | composeApp/src/commonMain/kotlin/com/kashif/kollama/presentation/utils/JobManager.kt:36-37 | the neighbours a relinking touches are themselves in the list |
| JobManager.DoublyLinkedList.RemoveLast | composeApp/src/commonMain/kotlin/com/kashif/kollama/presentation/utils/JobManager.kt:50-62 | `null` (None) on an empty list; otherwise the tail's value, with exactly the last node removed and size decremented |
| JobManager.DoublyLinkedList.Remove | composeApp/src/commonMain/kotlin/com/kashif/kollama/presentation/utils/JobManager.kt:64-74 | exactly that node is unlinked (head or tail moved when it was at an end), its links are cleared, size decremented |
| JobManager.DoublyLinkedList.Clear | composeApp/src/commonMain/kotlin/com/kashif/kollama/presentation/utils/JobManager.kt:76-80 | the list becomes empty |
| JobManager.DoublyLinkedList.Size | composeApp/src/commonMain/kotlin/com/kashif/kollama/presentation/utils/JobManager.kt:82 | the number of listed nodes |
| JobManager.Job.constructor | composeApp/src/commonMain/kotlin/com/kashif/kollama/presentation/utils/JobManager.kt:3 | a new job is not cancelled |
| JobManager.Job.Cancel | composeApp/src/commonMain/kotlin/com/kashif/kollama/presentation/utils/JobManager.kt:110 | the job is cancelled |
| JobManager.JobState.constructor | composeApp/src/commonMain/kotlin/com/kashif/kollama/presentation/utils/JobManager.kt:90-96 | holds the job and node, with an empty response builder and thinking stack, outside any thinking block |
| JobManager.ChatJobManager.constructor | composeApp/src/commonMain/kotlin/com/kashif/kollama/presentation/utils/JobManager.kt:85-88 | an empty, consistent manager |
| JobManager.ChatJobManager.GetActiveSessionIds | composeApp/src/commonMain/kotlin/com/kashif/kollama/presentation/utils/JobManager.kt:102-104 | exactly the ids with an entry; in a consistent manager also exactly the listed ids, at most 5 |
| JobManager.ChatJobManager.EvictOldest | composeApp/src/commonMain/kotlin/com/kashif/kollama/presentation/utils/JobManager.kt:107-113 | the last listed id leaves list and map, and its job, if it had an entry, is cancelled and its node cleared |
| JobManager.ChatJobManager.PopOldest | composeApp/src/commonMain/kotlin/com/kashif/kollama/presentation/utils/JobManager.kt:108 | `removeLast` seen from the manager: the last id leaves the list, every other entry stays listed |
| JobManager.ChatJobManager.DropEntry | composeApp/src/commonMain/kotlin/com/kashif/kollama/presentation/utils/JobManager.kt:109-112 | the entry leaves the map, its job is cancelled and its node cleared |
| JobManager.ChatJobManager.AddJob | composeApp/src/commonMain/kotlin/com/kashif/kollama/presentation/utils/JobManager.kt:105-124 | refines `AfterAddJob`: evicts (and cancels the evicted job) only when the map is full and the id new; then a fresh state with the job and the new head node is mapped to the id; no other job changes; coherent for a new id |
| JobManager.ChatJobManager.EvictAndPush | composeApp/src/commonMain/kotlin/com/kashif/kollama/presentation/utils/JobManager.kt:107-124 | full map and new id: the oldest id's entry goes, its job is cancelled, the new state is pushed; coherence is kept |
| JobManager.ChatJobManager.PushEntry | composeApp/src/commonMain/kotlin/com/kashif/kollama/presentation/utils/JobManager.kt:116-123 | the id is listed in front and mapped to a fresh state holding that node; no job's cancelled flag changes |
| JobManager.ChatJobManager.GetJobState | composeApp/src/commonMain/kotlin/com/kashif/kollama/presentation/utils/JobManager.kt:126-132 | an active id gets its state and its node becomes the head (refines `AfterGetJobState`); any other id gets None and nothing changes |
| JobManager.ChatJobManager.Promote | composeApp/src/commonMain/kotlin/com/kashif/kollama/presentation/utils/JobManager.kt:128-130 | the state's node moves to the head, other nodes keep their order |
| JobManager.ChatJobManager.RemoveJob | composeApp/src/commonMain/kotlin/com/kashif/kollama/presentation/utils/JobManager.kt:134-141 | an active id loses its entry, only its job is cancelled and its node is unlinked (refines `AfterRemoveJob`); any other id changes nothing |
| JobManager.ChatJobManager.ForgetEntry | composeApp/src/commonMain/kotlin/com/kashif/kollama/presentation/utils/JobManager.kt:135-136 | the entry goes and its job is cancelled |
| JobManager.ChatJobManager.UnlinkNode | composeApp/src/commonMain/kotlin/com/kashif/kollama/presentation/utils/JobManager.kt:137-139 | the removed session's node is unlinked, the rest keep their order |
| JobManager.ChatJobManager.CancelAllJobs | composeApp/src/commonMain/kotlin/com/kashif/kollama/presentation/utils/JobManager.kt:143-147 | every job that had an entry is cancelled; map and list end empty |
| JobManager.ChatJobManager.AddJobReplacing | composeApp/src/commonMain/kotlin/com/kashif/kollama/presentation/utils/JobManager.kt:105-124 | corrected `addJob`: an existing entry is removed first, so the id has exactly one node; the session's previous job and the job evicted after the removal (`ReplacedJobs`) are cancelled, and no other job may be modified; the new state holds the job at the head node; refines `AfterAddJobReplacing` and keeps coherence for every id |
| JobManager.ChatJobManager.RemoveForReplacing | composeApp/src/commonMain/kotlin/com/kashif/kollama/presentation/utils/JobManager.kt:134-141 | the removal step of the corrected `addJob`: the id's entry goes, its job is cancelled and its node unlinked; the job `addJob` then evicts is the one `EvictedOnReplacing` names from the state before the removal |
| JobManager.ChatJobManager.EvictedIsLastJob | composeApp/src/commonMain/kotlin/com/kashif/kollama/presentation/utils/JobManager.kt:107-113 | for an id without an entry, `addJob` evicts the job of the last list node exactly when the map holds `MAX_CONCURRENT_CHATS` entries or more |
| Conversation.FirstIndexById | composeApp/src/commonMain/kotlin/com/kashif/kollama/presentation/state/ChatViewModel.kt:199 | the index of the first message with the id, or -1 exactly when no message has it |
| Conversation.IndexOfFirst | composeApp/src/commonMain/kotlin/com/kashif/kollama/presentation/state/ChatViewModel.kt:199 | the front-to-back search returns `FirstIndexById` |
| Conversation.ReplaceFirstById | composeApp/src/commonMain/kotlin/com/kashif/kollama/presentation/state/ChatViewModel.kt:198-202 | replacing keeps the list's length |
| Conversation.ReplaceFirstOnly | composeApp/src/commonMain/kotlin/com/kashif/kollama/presentation/state/ChatViewModel.kt:198-202 | `updateMessage` changes only the first message with the id, keeps every position's id, and leaves a list without the id unchanged |
| Conversation.ReplaceTwice | composeApp/src/commonMain/kotlin/com/kashif/kollama/presentation/state/ChatViewModel.kt:198-202 | two updates of the same message equal one update with the later message |
| Conversation.FirstIndexAt | composeApp/src/commonMain/kotlin/com/kashif/kollama/presentation/state/ChatViewModel.kt:199 | a position holding the id with none before it is the first index |
| Conversation.TakeLastSuffix | composeApp/src/commonMain/kotlin/com/kashif/kollama/presentation/state/ChatViewModel.kt:114 | `takeLast(n)` is the suffix of length min(n, size), in order |
| Conversation.FindSession | composeApp/src/commonMain/kotlin/com/kashif/kollama/presentation/state/ChatViewModel.kt:390 | `find { it.id == id }`: none exactly when no session has the id; otherwise the listed session with that id at the first index holding the id |
| Conversation.Rename | composeApp/src/commonMain/kotlin/com/kashif/kollama/presentation/state/ChatViewModel.kt:387-404 | renaming keeps the number of sessions |
| Conversation.ReplaceAllById | composeApp/src/commonMain/kotlin/com/kashif/kollama/presentation/state/ChatViewModel.kt:397 | each session with the id is replaced, the others are kept, positions unchanged |
| Conversation.RenameOnly | composeApp/src/commonMain/kotlin/com/kashif/kollama/presentation/state/ChatViewModel.kt:387-404 | only sessions with the id are retitled (ids kept); others and a current session with another id are untouched; an unknown id changes nothing |
| Conversation.RenameIdempotent | composeApp/src/commonMain/kotlin/com/kashif/kollama/presentation/state/ChatViewModel.kt:387-404 | renaming twice to the same title is renaming once |
| Conversation.FindAfterReplaceAll | composeApp/src/commonMain/kotlin/com/kashif/kollama/presentation/state/ChatViewModel.kt:390-397 | after the map, `find` returns the updated session |
| Conversation.ReplaceAllSettled | composeApp/src/commonMain/kotlin/com/kashif/kollama/presentation/state/ChatViewModel.kt:397 | a list already holding the updated session is left as it is |
| Conversation.Retry | composeApp/src/commonMain/kotlin/com/kashif/kollama/presentation/state/ChatViewModel.kt:406-410 | content is resent exactly for a failed (ERROR) assistant message, and it is that message's content |
| Segmentation.StepMarkerFree | composeApp/src/commonMain/kotlin/com/kashif/kollama/presentation/state/ChatViewModel.kt:345-355 | a chunk without markers is appended to the answer outside a block and pushed on the thinking stack inside one; the flag stays |
| Segmentation.StepOpen | composeApp/src/commonMain/kotlin/com/kashif/kollama/presentation/state/ChatViewModel.kt:306-322 | a chunk with `<think>` sets the flag, appends the non-blank text before the marker, and pushes the text after it only when the chunk lacks `</think>` |
| Segmentation.StepClose | composeApp/src/commonMain/kotlin/com/kashif/kollama/presentation/state/ChatViewModel.kt:324-343 | a chunk with `</think>` (and no `<think>`) clears flag and stack, appends the non-blank text after the marker, and hides the thinking indicator |
| Segmentation.BothMarkersStayThinking | composeApp/src/commonMain/kotlin/com/kashif/kollama/presentation/state/ChatViewModel.kt:306-322 | `<think>x</think>` in one chunk leaves the stream inside a thinking block with nothing pushed |
| Segmentation.SplitMarkerNotRecognised | composeApp/src/commonMain/kotlin/com/kashif/kollama/presentation/state/ChatViewModel.kt:305-356 | a marker split across two chunks is not recognised and both halves reach the answer |
| Segmentation.OpenAnswer | composeApp/src/commonMain/kotlin/com/kashif/kollama/presentation/state/ChatViewModel.kt:306-322 | the `<think>` branch only extends the answer, and any answer it shows is the new answer |
| Segmentation.CloseAnswer | composeApp/src/commonMain/kotlin/com/kashif/kollama/presentation/state/ChatViewModel.kt:324-343 | the `</think>` branch only extends the answer, and any answer it shows is the new answer |
| Segmentation.StepAnswerGrows | composeApp/src/commonMain/kotlin/com/kashif/kollama/presentation/state/ChatViewModel.kt:298-358 | every step extends the answer and shows only the answer after the step |
| Segmentation.RunAppend | composeApp/src/commonMain/kotlin/com/kashif/kollama/presentation/state/ChatViewModel.kt:298-358 | processing two chunk sequences in turn is processing their concatenation |
| Segmentation.RunMarkerFree | composeApp/src/commonMain/kotlin/com/kashif/kollama/presentation/state/ChatViewModel.kt:350-355 | outside a block, marker-free chunks are appended verbatim |
| Segmentation.RunAnswerGrows | composeApp/src/commonMain/kotlin/com/kashif/kollama/presentation/state/ChatViewModel.kt:298-358 | across a stream the message content only grows (each answer is a prefix of the later ones) |
| Segmentation.PreludeOpens | composeApp/src/jvmMain/kotlin/com/kashif/deepseek/data/local/service/OllamaService.kt:308 | the desktop service's first prelude chunk `<think>Thinking...</think>` leaves the stream inside a block with nothing pushed or shown |
| Segmentation.PreludeCloses | composeApp/src/jvmMain/kotlin/com/kashif/deepseek/data/local/service/OllamaService.kt:308 | the lone `</think>` that follows ends the block and hides the indicator |
| Segmentation.PreludeThenContents | composeApp/src/jvmMain/kotlin/com/kashif/deepseek/data/local/service/OllamaService.kt:308 | after the prelude, marker-free contents all land in the answer in order, outside any block |
| Segmentation.Step | composeApp/src/commonMain/kotlin/com/kashif/kollama/presentation/state/ChatViewModel.kt:305-356 | definition of one chunk's handling, in the order of the source's branches: `<think>`, then `</think>`, then a chunk inside a thinking block (pushed on the stack, the stack shown), then any other chunk (appended to the answer, the answer shown) |
| Segmentation.OnOpen | composeApp/src/commonMain/kotlin/com/kashif/kollama/presentation/state/ChatViewModel.kt:306-322 | definition: text before `<think>` joins the answer and is shown only when not blank; when the chunk has no `</think>` the text after `<think>` is pushed and the stack shown; the thinking flag is set |
| Segmentation.OnClose | composeApp/src/commonMain/kotlin/com/kashif/kollama/presentation/state/ChatViewModel.kt:324-343 | definition: text before `</think>` is shown with the stack only when not blank, the stack is emptied and the indicator hidden, text after `</think>` joins the answer and is shown only when not blank; the flag is cleared |
| CommonViewModel.ProcessMessageChunk | composeApp/src/commonMain/kotlin/com/kashif/kollama/presentation/state/ChatViewModel.kt:298-358 | the job state's `responseBuilder`, `thinkingStack` and `isInThinkingBlock` and the shown updates are exactly the segmenter step |
| CommonViewModel.ProcessOpen | composeApp/src/commonMain/kotlin/com/kashif/kollama/presentation/state/ChatViewModel.kt:306-322 | the `<think>` branch on the job state equals the segmenter's open step |
| CommonViewModel.ProcessClose | composeApp/src/commonMain/kotlin/com/kashif/kollama/presentation/state/ChatViewModel.kt:324-343 | the `</think>` branch on the job state equals the segmenter's close step |
| CommonViewModel.NewSessionTitle | composeApp/src/commonMain/kotlin/com/kashif/kollama/presentation/state/ChatViewModel.kt:166 | the first 50 characters of the content, or "New Chat" when those are blank; never blank, at most 50 long |
| CommonViewModel.AssistantRow | composeApp/src/commonMain/kotlin/com/kashif/kollama/presentation/state/ChatViewModel.kt:117-121 | the row carries the assistant's id and session with the new content, and reads back as the assistant message with that content and status |
| CommonViewModel.GatherPiece | composeApp/src/commonMain/kotlin/com/kashif/kollama/presentation/state/ChatViewModel.kt:126-127 | a blank content adds nothing to `currentContent`, any other is appended |
| CommonViewModel.CollectRowsShape | composeApp/src/commonMain/kotlin/com/kashif/kollama/presentation/state/ChatViewModel.kt:124-147 | the collector only shows the assistant message SENDING or SENT, each row's content extending the previous |
| CommonViewModel.CollectRowsWithoutDone | composeApp/src/commonMain/kotlin/com/kashif/kollama/presentation/state/ChatViewModel.kt:128-135 | without a `done` response every update is SENDING |
| CommonViewModel.CollectRowsEndSent | composeApp/src/commonMain/kotlin/com/kashif/kollama/presentation/state/ChatViewModel.kt:138-146 | a stream ending in `done` ends with the message SENT holding every non-blank content joined |
| CommonViewModel.ApplySameMessage | composeApp/src/commonMain/kotlin/com/kashif/kollama/presentation/state/ChatViewModel.kt:194-207 | repeated updates of one message leave only the last one |
| CommonViewModel.ChatEndsSent | composeApp/src/commonMain/kotlin/com/kashif/kollama/presentation/state/ChatViewModel.kt:109-147 | a reply that reaches `done` leaves the assistant message SENT with the joined contents and changes nothing else |
| CommonViewModel.SameMessageOfGrowing | composeApp/src/commonMain/kotlin/com/kashif/kollama/presentation/state/ChatViewModel.kt:124-147 | all collector rows are about the assistant message |
| CommonViewModel.ChatEndsError | composeApp/src/commonMain/kotlin/com/kashif/kollama/presentation/state/ChatViewModel.kt:115-123 | a failed stream leaves the assistant message ERROR with "Error: " and the exception's message, whatever was shown before |
| CommonViewModel.ChatEndsSending | composeApp/src/commonMain/kotlin/com/kashif/kollama/presentation/state/ChatViewModel.kt:124-147 | a stream that ends without `done` and without failing leaves the message SENDING |
| CommonViewModel.ChatViewModel.constructor | composeApp/src/commonMain/kotlin/com/kashif/kollama/presentation/state/ChatViewModel.kt:33-39 | empty message lists, observers, sessions, job registry; no model, no error |
| CommonViewModel.ChatViewModel.UpdateMessage | composeApp/src/commonMain/kotlin/com/kashif/kollama/presentation/state/ChatViewModel.kt:194-207 | the session's list has the first message with the row's id replaced; a missing session or id changes nothing |
| CommonViewModel.ChatViewModel.Collect | composeApp/src/commonMain/kotlin/com/kashif/kollama/presentation/state/ChatViewModel.kt:124-147 | the message lists end as the collector's rows applied in order |
| CommonViewModel.ChatViewModel.RunChatJob | composeApp/src/commonMain/kotlin/com/kashif/kollama/presentation/state/ChatViewModel.kt:109-153 | the reply's rows are applied, a failure sets "Failed to process message: ..." and, however the stream ends, the session's job is removed |
| CommonViewModel.ChatViewModel.Stream | composeApp/src/commonMain/kotlin/com/kashif/kollama/presentation/state/ChatViewModel.kt:110-150 | the collector's rows, then on failure the ERROR row and the error message |
| CommonViewModel.ChatViewModel.ObserveSessionMessages | composeApp/src/commonMain/kotlin/com/kashif/kollama/presentation/state/ChatViewModel.kt:176-192 | the previous observer is cancelled, the session gets an empty list if it had none, a fresh running observer is registered |
| CommonViewModel.ChatViewModel.CreateSession | composeApp/src/commonMain/kotlin/com/kashif/kollama/presentation/state/ChatViewModel.kt:162-174 | a session titled `NewSessionTitle(content)` becomes current and is observed |
| CommonViewModel.ChatViewModel.AddExchange | composeApp/src/commonMain/kotlin/com/kashif/kollama/presentation/state/ChatViewModel.kt:78-102 | the current (or new) session gets the user message and an empty SENDING assistant message; a "New Chat" title is renamed to the first 50 characters |
| CommonViewModel.ChatViewModel.SendMessage | composeApp/src/commonMain/kotlin/com/kashif/kollama/presentation/state/ChatViewModel.kt:75-160 | no model: nothing changes but the error "Failed to send message: No model selected"; otherwise the exchange is added, the session's job is registered with the corrected `addJob` (see Findings) and the launched request holds the model and the session's last 20 messages |
| CommonViewModel.ChatViewModel.RetryMessage | composeApp/src/commonMain/kotlin/com/kashif/kollama/presentation/state/ChatViewModel.kt:406-410 | a failed assistant message sends its content again (the request ends with it as user message and an empty assistant turn); anything else changes nothing |
| CommonViewModel.ChatViewModel.RenameSession | composeApp/src/commonMain/kotlin/com/kashif/kollama/presentation/state/ChatViewModel.kt:387-404 | the sessions become `Rename(old, id, title)` |
| CommonViewModel.ChatViewModel.CleanupInactiveSessions | composeApp/src/commonMain/kotlin/com/kashif/kollama/presentation/state/ChatViewModel.kt:375-385 | every observed session without a job has its observer cancelled and dropped together with its message list; everything else is kept |
| CommonViewModel.ChatViewModel.OnCleared | composeApp/src/commonMain/kotlin/com/kashif/kollama/presentation/state/ChatViewModel.kt:217-224 | all jobs are dropped, every observer is cancelled, all message lists are forgotten |
| CommonViewModel.Listing | composeApp/src/commonMain/kotlin/com/kashif/kollama/presentation/state/ChatViewModel.kt:81 | `getOrPut`: an existing list is kept, a missing one becomes empty |
| CommonViewModel.RequestEndsWithPrompt | composeApp/src/commonMain/kotlin/com/kashif/kollama/presentation/state/ChatViewModel.kt:87-114 | the request holds min(20, size) messages and ends with the user's message and then the empty assistant message |
| CommonViewModel.WindowEndsWith | composeApp/src/commonMain/kotlin/com/kashif/kollama/presentation/state/ChatViewModel.kt:114 | a window of at least two over a list ending `x, y` ends `x, y` |
| CommonViewModel.ApplyCons | composeApp/src/commonMain/kotlin/com/kashif/kollama/presentation/state/ChatViewModel.kt:194-207 | applying rows starts with the first `updateMessage` |
| CommonViewModel.ApplyAppend | composeApp/src/commonMain/kotlin/com/kashif/kollama/presentation/state/ChatViewModel.kt:194-207 | one more row is one more `updateMessage` |
| JvmViewModel.JvmTitle | composeApp/src/jvmMain/kotlin/com/kashif/deepseek/presentation/state/ChatViewModel.kt:286 | a content longer than 20 is titled by its first 21 characters (`substring(0..20)` is inclusive); any other content gets "New Chat" |
| JvmViewModel.JvmTitleMayBeBlank | composeApp/src/jvmMain/kotlin/com/kashif/deepseek/presentation/state/ChatViewModel.kt:286 | unlike the shared client, the desktop title can be blank (21 spaces) |
| JvmViewModel.IndicatedAppend | composeApp/src/jvmMain/kotlin/com/kashif/deepseek/presentation/state/ChatViewModel.kt:120-144 | thinking-indicator updates applied in two runs equal one run |
| JvmViewModel.AnsweredAppend | composeApp/src/jvmMain/kotlin/com/kashif/deepseek/presentation/state/ChatViewModel.kt:113-153 | answer updates applied in two runs equal one run |
| JvmViewModel.AnsweredThenReplaced | composeApp/src/jvmMain/kotlin/com/kashif/deepseek/presentation/state/ChatViewModel.kt:158-163 | whatever answers were shown, the final replacement of the assistant message alone decides the list |
| JvmViewModel.ReplaceNewLast | composeApp/src/jvmMain/kotlin/com/kashif/deepseek/presentation/state/ChatViewModel.kt:87-96 | replacing the just-appended assistant message (new id) is replacing the last element |
| JvmViewModel.Final | composeApp/src/jvmMain/kotlin/com/kashif/deepseek/presentation/state/ChatViewModel.kt:103-163 | the last update: SENT with the segmented answer after a stream that ends; ERROR with the original empty content after one that fails |
| JvmViewModel.PreludeHidesIndicator | composeApp/src/jvmMain/kotlin/com/kashif/deepseek/presentation/state/ChatViewModel.kt:107-156 | after the desktop service's `<think>Thinking...</think>` prelude, marker-free text leaves no thinking indicator |
| JvmViewModel.DesktopStreamAnswer | composeApp/src/jvmMain/kotlin/com/kashif/deepseek/presentation/state/ChatViewModel.kt:102-163 | fed the service's prelude and marker-free text, a successful send ends SENT with exactly that text and no indicator |
| JvmViewModel.JvmChatViewModel.constructor | composeApp/src/jvmMain/kotlin/com/kashif/deepseek/presentation/state/ChatViewModel.kt:25-30 | no messages, no indicator, no sessions, no error, no model, no observation |
| JvmViewModel.JvmChatViewModel.UpdateMessage | composeApp/src/jvmMain/kotlin/com/kashif/deepseek/presentation/state/ChatViewModel.kt:192-200 | the first message with the id is replaced; the repository is written exactly when such a message exists |
| JvmViewModel.JvmChatViewModel.UpdateThinkingState | composeApp/src/jvmMain/kotlin/com/kashif/deepseek/presentation/state/ChatViewModel.kt:176-190 | the indicator shows "🤔 Thinking..." followed by the thinking text |
| JvmViewModel.JvmChatViewModel.ChunkOpen | composeApp/src/jvmMain/kotlin/com/kashif/deepseek/presentation/state/ChatViewModel.kt:109-122 | the `<think>` branch equals the segmenter's open step, its updates applied to messages and indicator |
| JvmViewModel.JvmChatViewModel.ChunkClose | composeApp/src/jvmMain/kotlin/com/kashif/deepseek/presentation/state/ChatViewModel.kt:124-140 | the `</think>` branch equals the segmenter's close step, its updates applied |
| JvmViewModel.JvmChatViewModel.ProcessChunk | composeApp/src/jvmMain/kotlin/com/kashif/deepseek/presentation/state/ChatViewModel.kt:108-155 | one chunk of the `when` equals one segmenter step with its updates applied |
| JvmViewModel.JvmChatViewModel.Collect | composeApp/src/jvmMain/kotlin/com/kashif/deepseek/presentation/state/ChatViewModel.kt:107-156 | the collected answer is the segmenter's answer over all chunks, and messages and indicator receive all its updates |
| JvmViewModel.JvmChatViewModel.ObserveSessionMessages | composeApp/src/jvmMain/kotlin/com/kashif/deepseek/presentation/state/ChatViewModel.kt:233-245 | the previous observation is cancelled and a fresh one starts for the session |
| JvmViewModel.JvmChatViewModel.CreateSession | composeApp/src/jvmMain/kotlin/com/kashif/deepseek/presentation/state/ChatViewModel.kt:282-307 | a session titled `JvmTitle(content)` becomes current and is observed |
| JvmViewModel.JvmChatViewModel.RenameSession | composeApp/src/jvmMain/kotlin/com/kashif/deepseek/presentation/state/ChatViewModel.kt:311-330 | the sessions become `Rename(old, id, title)` |
| JvmViewModel.JvmChatViewModel.AddExchange | composeApp/src/jvmMain/kotlin/com/kashif/deepseek/presentation/state/ChatViewModel.kt:73-96 | the current or a new session is chosen (renamed to the content while titled "New Chat"), and the user message and an empty SENDING assistant message are appended |
| JvmViewModel.JvmChatViewModel.SendMessage | composeApp/src/jvmMain/kotlin/com/kashif/deepseek/presentation/state/ChatViewModel.kt:70-169 | no model: only the error "Failed to send message: No model selected"; otherwise the service is called with model, content and session, and the assistant message ends SENT with the answer or, on failure, ERROR with empty content and the error reported |
| JvmViewModel.JvmChatViewModel.Stream | composeApp/src/jvmMain/kotlin/com/kashif/deepseek/presentation/state/ChatViewModel.kt:102-167 | from the collected chunks and the failure, the final assistant message, the indicator and the error |
| JvmViewModel.JvmChatViewModel.RetryMessage | composeApp/src/jvmMain/kotlin/com/kashif/deepseek/presentation/state/ChatViewModel.kt:333-337 | only a failed assistant message is sent again with its content; anything else changes nothing |
| DesktopAnswer.PreludeSplit | composeApp/src/jvmMain/kotlin/com/kashif/deepseek/data/local/service/OllamaService.kt:308 | the placeholder followed by the server's `</think>` is the view model's prelude |
| DesktopAnswer.ShownAnswer | composeApp/src/jvmMain/kotlin/com/kashif/deepseek/data/local/service/OllamaService.kt:259-327 | what `chat` emits for a chunked reply with marker-free contents, fed to the desktop view model, ends SENT with exactly the responses' text |
| Storage.NewMessage | composeApp/src/commonMain/kotlin/com/kashif/kollama/domain/model/ChatMessageDomainModel.kt:9-16 | a new message has status SENT by default and the given id, session, content, sender and time |
| Storage.StatusName | composeApp/src/commonMain/kotlin/com/kashif/kollama/domain/model/ChatMessageDomainModel.kt:25-29 | every status is stored under one of "SENT", "SENDING", "ERROR" |
| Storage.StatusOf | composeApp/src/commonMain/kotlin/com/kashif/kollama/data/local/database/Database.kt:121-126 | a stored name other than the three reads as SENT |
| Storage.StatusNameInverse | composeApp/src/commonMain/kotlin/com/kashif/kollama/data/local/database/Database.kt:121-126 | reading a stored status gives it back, and distinct statuses get distinct names |
| Storage.StatusOfInverse | composeApp/src/commonMain/kotlin/com/kashif/kollama/data/local/database/Database.kt:121-126 | a name survives reading and writing back exactly when it is one of the three |
| Storage.MessageToRow | composeApp/src/commonMain/kotlin/com/kashif/kollama/domain/model/ChatMessageDomainModel.kt:20-31 | every field is copied, the sender flag stored as 1 or 0, the status under its name |
| Storage.MessageOfRow | composeApp/src/commonMain/kotlin/com/kashif/kollama/data/local/database/Database.kt:116-128 | every field is copied; flag 1 is a user message; each name gives its status, anything else SENT |
| Storage.MessageRoundTrip | composeApp/src/commonMain/kotlin/com/kashif/kollama/data/local/database/Database.kt:116-128 | a message written and read back is the same message |
| Storage.RowRoundTrip | composeApp/src/commonMain/kotlin/com/kashif/kollama/data/local/database/Database.kt:116-128 | a row survives reading and writing back exactly when its flag is 0 or 1 and its status one of the three names |
| Storage.RowNormalisationIdempotent | composeApp/src/commonMain/kotlin/com/kashif/kollama/data/local/database/Database.kt:116-128 | reading and writing back a second time changes nothing more |
| Storage.SessionToRow | composeApp/src/commonMain/kotlin/com/kashif/kollama/domain/model/ChatSessionDomainModel.kt:15-20 | every session field is copied |
| Storage.SessionOfRow | composeApp/src/commonMain/kotlin/com/kashif/kollama/data/local/database/Database.kt:106-111 | every session field is copied |
| Storage.SessionRoundTrips | composeApp/src/commonMain/kotlin/com/kashif/kollama/data/local/database/Database.kt:106-111 | both session round trips are the identity |
| Storage.MessagesToRows | composeApp/src/commonMain/kotlin/com/kashif/kollama/domain/model/ChatMessageDomainModel.kt:32 | the list mapping converts each message in place |
| Storage.MessagesOfRows | composeApp/src/commonMain/kotlin/com/kashif/kollama/data/local/database/Database.kt:130-131 | the list mapping converts each row in place |
| Storage.SessionsToRows | composeApp/src/commonMain/kotlin/com/kashif/kollama/domain/model/ChatSessionDomainModel.kt:21 | the list mapping converts each session in place |
| Storage.SessionsOfRows | composeApp/src/commonMain/kotlin/com/kashif/kollama/data/local/database/Database.kt:113-114 | the list mapping converts each row in place |
| Storage.ListRoundTrips | composeApp/src/commonMain/kotlin/com/kashif/kollama/data/local/database/Database.kt:113-131 | stored lists read back are the lists written, in order |
| ModelDescription.Describe | composeApp/src/jvmMain/kotlin/com/kashif/deepseek/presentation/components/ModelSelectionScreen.kt:124-129 | each description is returned exactly in its case: "32b" first, then "7b", then "latest", otherwise the general text |
| ModelDescription.SizeBeforeTag | composeApp/src/jvmMain/kotlin/com/kashif/deepseek/presentation/components/ModelSelectionScreen.kt:124-129 | a name with a size and the `latest` tag is described by its size, and `32b` beats `7b` |
| StreamDecoder.ToChatMessage | composeApp/src/commonMain/kotlin/com/kashif/kollama/data/local/service/OllamaService.kt:68-71 | the content is kept; the role is "user" exactly for a user message and "assistant" otherwise |
| StreamDecoder.ToChatMessages | composeApp/src/commonMain/kotlin/com/kashif/kollama/data/local/service/OllamaService.kt:73 | each message is converted in place |
| StreamDecoder.ChatRequestOf | composeApp/src/commonMain/kotlin/com/kashif/kollama/data/local/service/OllamaService.kt:209-216 | the request always streams and carries the model and messages as given |
| StreamDecoder.Chat | composeApp/src/commonMain/kotlin/com/kashif/kollama/data/local/service/OllamaService.kt:223-241 | the reading loop emits `ChatEmits(lines)` and stops early exactly when a `done` response was read |
| StreamDecoder.ChatEmitsDecoded | composeApp/src/commonMain/kotlin/com/kashif/kollama/data/local/service/OllamaService.kt:224-240 | `chat` emits a prefix of the decoded non-blank lines in order (all of them when no `done` comes), the last one is `done` exactly when it stops early, and nothing follows a `done` response |
| StreamDecoder.BlankLinesIgnored | composeApp/src/commonMain/kotlin/com/kashif/kollama/data/local/service/OllamaService.kt:226 | blank lines change nothing |
| StreamDecoder.Generate | composeApp/src/commonMain/kotlin/com/kashif/kollama/data/local/service/OllamaService.kt:286-317 | the reading loop of `generate` emits `GenerateEmits(lines, "")` |
| StreamDecoder.GenerateReassembles | composeApp/src/commonMain/kotlin/com/kashif/kollama/data/local/service/OllamaService.kt:301-311 | a response split over two lines that do not decode alone is reassembled from the buffer and emitted |
| StreamDecoder.GenerateStopsAtDone | composeApp/src/commonMain/kotlin/com/kashif/kollama/data/local/service/OllamaService.kt:296-309 | `generate` emits nothing after a `done` response |
| StreamDecoder.ChatFailureClassified | composeApp/src/commonMain/kotlin/com/kashif/kollama/data/local/service/OllamaService.kt:246-256 | a cancellation is rethrown unchanged; other failures become `OllamaError`s, `TimeoutError` exactly for request and connect timeouts, otherwise `ConnectionError` |
| StreamDecoder.GenerateFailureClassified | composeApp/src/commonMain/kotlin/com/kashif/kollama/data/local/service/OllamaService.kt:321-327 | `generate` never rethrows: cancellation and WebSocket failures become "Network error: ..." connection errors; everything else is mapped as `chat` maps it |
| StreamDecoder.ChatFlowEnds | composeApp/src/commonMain/kotlin/com/kashif/kollama/data/local/service/OllamaService.kt:208-256 | the flow completes normally exactly when the body has no failure or a `done` response came before it |
| StreamDecoder.ChatEmits | composeApp/src/commonMain/kotlin/com/kashif/kollama/data/local/service/OllamaService.kt:223-241 | definition of what `chat` emits: blank lines and lines that do not decode are skipped, every decoded response is emitted, and emission stops after the first one marked `done` |
| StreamDecoder.GenerateEmits | composeApp/src/commonMain/kotlin/com/kashif/kollama/data/local/service/OllamaService.kt:286-317 | definition of what `generate` emits: a line that decodes alone is emitted; otherwise it joins the buffer, and a buffer that then decodes is emitted and emptied; emission stops after the first `done` |
| StreamDecoder.ChatFailure | composeApp/src/commonMain/kotlin/com/kashif/kollama/data/local/service/OllamaService.kt:246-256 | definition of `chat`'s `catch`: a WebSocket failure becomes `ConnectionError("WebSocket error")`, request and connect timeouts `TimeoutError`, a cancellation is rethrown, anything else `ConnectionError("Network error: ...")` |
| StreamDecoder.GenerateFailure | composeApp/src/commonMain/kotlin/com/kashif/kollama/data/local/service/OllamaService.kt:321-327 | definition of `generate`'s `catch`: timeouts as in `chat`, every other failure (cancellation and WebSocket included) `ConnectionError("Network error: ...")` |
| Transport.SplitLine | composeApp/src/jvmMain/kotlin/com/kashif/deepseek/data/local/service/OllamaService.kt:120 | `readLine`: no line exactly at the end of the input; otherwise a line without terminator that starts the input, and a strictly shorter rest that ends it |
| Transport.SplitLineCrlf | composeApp/src/jvmMain/kotlin/com/kashif/deepseek/data/local/service/OllamaService.kt:95-107 | a line written with its `\r\n` is read back whole, followed by the rest |
| Transport.LineReader.constructor | composeApp/src/jvmMain/kotlin/com/kashif/deepseek/data/local/service/OllamaService.kt:274-275 | the reader's unread input is what the server sent |
| Transport.LineReader.ReadLine | composeApp/src/jvmMain/kotlin/com/kashif/deepseek/data/local/service/OllamaService.kt:120 | `readLine()` returns the next line and consumes it with its terminator, or `null` (None) at the end leaving the input as it was |
| Transport.LineReader.Read | composeApp/src/jvmMain/kotlin/com/kashif/deepseek/data/local/service/OllamaService.kt:137 | `read(buffer, off, len)`: -1 at the end of the input; otherwise min(len, available) characters copied into the buffer at `off`, the rest of the buffer untouched, and they are consumed |
| Transport.LineReader.Receive | composeApp/src/jvmMain/kotlin/com/kashif/deepseek/data/local/service/OllamaService.kt:305-306 | the server's reply is appended to the unread input |
| Transport.LineReader.ReadText | composeApp/src/jvmMain/kotlin/com/kashif/deepseek/data/local/service/OllamaService.kt:144 | `readText()` returns everything left and consumes it |
| Transport.LineReader.Drain | composeApp/src/jvmMain/kotlin/com/kashif/deepseek/data/local/service/OllamaService.kt:218-220 | `while (ready()) read()` consumes everything the server has sent |
| HttpMessage.IntToString | composeApp/src/jvmMain/kotlin/com/kashif/deepseek/data/local/service/OllamaService.kt:100 | the decimal rendering is never empty |
| HttpMessage.CharUtf8Length | composeApp/src/jvmMain/kotlin/com/kashif/deepseek/data/local/service/OllamaService.kt:100 | a character takes 1 to 4 bytes in UTF-8 |
| HttpMessage.Utf8Length | composeApp/src/jvmMain/kotlin/com/kashif/deepseek/data/local/service/OllamaService.kt:100 | `toByteArray(UTF_8).size` lies between the length and four times the length |
| HttpMessage.AsciiUtf8Length | composeApp/src/jvmMain/kotlin/com/kashif/deepseek/data/local/service/OllamaService.kt:100 | for ASCII text the byte count is the character count |
| HttpMessage.HeaderTexts | composeApp/src/jvmMain/kotlin/com/kashif/deepseek/data/local/service/OllamaService.kt:103-105 | each header becomes its "key: value" line, in order |
| HttpMessage.Padded | composeApp/src/jvmMain/kotlin/com/kashif/deepseek/data/local/service/OllamaService.kt:134-141 | a `CharArray(n)` filled from the input: its first n characters, or the input followed by `\0`s when it is shorter |
| HttpMessage.ExtractResponseBody | composeApp/src/jvmMain/kotlin/com/kashif/deepseek/data/local/service/OllamaService.kt:116-146 | the method returns `ResponseBody(input, maxContentLength)`: headers scanned up to the empty line, the (case-insensitive) Content-Length parsed, a length above the limit is `ContentTooLargeError`, a positive length reads that many characters (NUL-padded), otherwise the rest of the text |
| HttpMessage.Unread | composeApp/src/jvmMain/kotlin/com/kashif/deepseek/data/local/service/OllamaService.kt:136-140 | after a counted read, the input loses min(n, available) characters from its front |
| HttpMessage.ReadExactly | composeApp/src/jvmMain/kotlin/com/kashif/deepseek/data/local/service/OllamaService.kt:133-141 | the counted read loop returns the NUL-padded array and consumes at most `length` characters |
| HttpMessage.TerminatedAppend | composeApp/src/jvmMain/kotlin/com/kashif/deepseek/data/local/service/OllamaService.kt:95-107 | terminating two runs of lines is terminating their concatenation |
| HttpMessage.ScanStep | composeApp/src/jvmMain/kotlin/com/kashif/deepseek/data/local/service/OllamaService.kt:119-130 | a line that is neither empty nor a Content-Length line is skipped |
| HttpMessage.ScanEnd | composeApp/src/jvmMain/kotlin/com/kashif/deepseek/data/local/service/OllamaService.kt:121 | the empty line ends the head, with the length found so far and the rest as body |
| HttpMessage.ScanPlain | composeApp/src/jvmMain/kotlin/com/kashif/deepseek/data/local/service/OllamaService.kt:119-130 | a run of such lines leaves the length found so far unchanged |
| HttpMessage.TrimSpacedDigits | composeApp/src/jvmMain/kotlin/com/kashif/deepseek/data/local/service/OllamaService.kt:124 | `trim()` removes the space after "Content-Length:" |
| HttpMessage.LengthLineNoBreak | composeApp/src/jvmMain/kotlin/com/kashif/deepseek/data/local/service/OllamaService.kt:100 | the Content-Length line holds no line break |
| HttpMessage.LengthLineRecognised | composeApp/src/jvmMain/kotlin/com/kashif/deepseek/data/local/service/OllamaService.kt:100-123 | the written Content-Length line passes the `lowercase().startsWith("content-length:")` test and carries a space and the digits after the prefix |
| HttpMessage.LengthLineRead | composeApp/src/jvmMain/kotlin/com/kashif/deepseek/data/local/service/OllamaService.kt:100-124 | the Content-Length line is one line, recognised, and its trimmed value is the decimal byte count |
| HttpMessage.ScanLength | composeApp/src/jvmMain/kotlin/com/kashif/deepseek/data/local/service/OllamaService.kt:123-128 | the written Content-Length line is read back as its number |
| HttpMessage.ContentTypePlain | composeApp/src/jvmMain/kotlin/com/kashif/deepseek/data/local/service/OllamaService.kt:99 | the Content-Type line is not taken for a Content-Length line |
| HttpMessage.BodyHeaderTexts | composeApp/src/jvmMain/kotlin/com/kashif/deepseek/data/local/service/OllamaService.kt:98-105 | with a body, the Content-Type and Content-Length lines precede the given headers |
| HttpMessage.HeadWithoutBody | composeApp/src/jvmMain/kotlin/com/kashif/deepseek/data/local/service/OllamaService.kt:89-111 | a request without body reads back with length 0 and nothing after the head |
| HttpMessage.RequestWithBodyShape | composeApp/src/jvmMain/kotlin/com/kashif/deepseek/data/local/service/OllamaService.kt:94-111 | the request with a body: request line, Host, Content-Type, Content-Length, the given headers, the empty line, then the body |
| HttpMessage.TerminatedCons | composeApp/src/jvmMain/kotlin/com/kashif/deepseek/data/local/service/OllamaService.kt:95-107 | each line is followed by `\r\n` |
| HttpMessage.FirstLinesPlain | composeApp/src/jvmMain/kotlin/com/kashif/deepseek/data/local/service/OllamaService.kt:95-99 | the first three lines are skipped by the head scanner |
| HttpMessage.HeaderLinesPlain | composeApp/src/jvmMain/kotlin/com/kashif/deepseek/data/local/service/OllamaService.kt:103-105 | the given header lines are skipped by the head scanner |
| HttpMessage.HeadWithBody | composeApp/src/jvmMain/kotlin/com/kashif/deepseek/data/local/service/OllamaService.kt:89-128 | a request with a body reads back with the body's UTF-8 length and the body after the head |
| HttpMessage.RequestHeadRoundTrip | composeApp/src/jvmMain/kotlin/com/kashif/deepseek/data/local/service/OllamaService.kt:89-130 | reading back a built request's head gives the body's UTF-8 byte count (0 without body) and exactly the body after it: a Content-Length is written exactly when there is a body, and it is right |
| HttpMessage.RequestBodyRoundTrip | composeApp/src/jvmMain/kotlin/com/kashif/deepseek/data/local/service/OllamaService.kt:89-146 | `extractResponseBody` applied to a built request with an ASCII body recovers exactly the body (the empty text without one) |
| HttpMessage.BuildHttpRequest | composeApp/src/jvmMain/kotlin/com/kashif/deepseek/data/local/service/OllamaService.kt:89-111 | definition: the request line and the headers, each ended by CRLF, a blank line, then the body when there is one |
| HttpMessage.ScanHeaders | composeApp/src/jvmMain/kotlin/com/kashif/deepseek/data/local/service/OllamaService.kt:119-130 | definition of the header loop: it stops at an empty line or at the end of the input; a line starting with `content-length:` in any case sets the length to its trimmed value, fails on a value that is not an integer or is above the limit; the last such line wins |
| HttpMessage.ResponseBody | composeApp/src/jvmMain/kotlin/com/kashif/deepseek/data/local/service/OllamaService.kt:132-145 | definition of the body: a positive length reads exactly that many characters (NUL-padded when the input ends first), otherwise the rest of the input; header errors are passed on |
| ChunkedReader.SkipLine | composeApp/src/jvmMain/kotlin/com/kashif/deepseek/data/local/service/OllamaService.kt:188 | dropping a line never lengthens the input |
| ChunkedReader.AfterHead | composeApp/src/jvmMain/kotlin/com/kashif/deepseek/data/local/service/OllamaService.kt:159-163 | the head loop leaves a suffix of the input |
| ChunkedReader.Visible | composeApp/src/jvmMain/kotlin/com/kashif/deepseek/data/local/service/OllamaService.kt:199-202 | a response hands on at most one content, and never a blank or null one |
| ChunkedReader.BodyPass | composeApp/src/jvmMain/kotlin/com/kashif/deepseek/data/local/service/OllamaService.kt:168-216 | a pass that lets the loop go on consumes input, so the loop ends |
| ChunkedReader.ChunkPass | composeApp/src/jvmMain/kotlin/com/kashif/deepseek/data/local/service/OllamaService.kt:186-211 | after a chunk the loop goes on or ends with `done`; the line after the chunk is consumed; a chunk that does not decode is passed over |
| ChunkedReader.BodyUnfold | composeApp/src/jvmMain/kotlin/com/kashif/deepseek/data/local/service/OllamaService.kt:168-216 | the body loop is its first pass followed, when the pass goes on, by the loop over the remaining input |
| ChunkedReader.ThenThen | composeApp/src/jvmMain/kotlin/com/kashif/deepseek/data/local/service/OllamaService.kt:168-216 | handing on in two steps is handing on the concatenation |
| ChunkedReader.ReadChunk | composeApp/src/jvmMain/kotlin/com/kashif/deepseek/data/local/service/OllamaService.kt:174-212 | reads the `CharArray(chunkSize)` (NUL-padded when the input ends), drops the next line, and hands on the decoded response's content, `</think>` first for the first response |
| ChunkedReader.ReadPass | composeApp/src/jvmMain/kotlin/com/kashif/deepseek/data/local/service/OllamaService.kt:169-215 | one iteration of the body loop equals `BodyPass` on the unread input |
| ChunkedReader.ProcessResponse | composeApp/src/jvmMain/kotlin/com/kashif/deepseek/data/local/service/OllamaService.kt:151-226 | `onResponse` receives `Body(AfterHead(input)).emitted` in order, the call fails exactly as `Body` says, and on a normal end the rest of the input is drained |
| ChunkedReader.Contents | composeApp/src/jvmMain/kotlin/com/kashif/deepseek/data/local/service/OllamaService.kt:199-202 | only non-blank contents are handed on |
| ChunkedReader.BodyLayers | composeApp/src/jvmMain/kotlin/com/kashif/deepseek/data/local/service/OllamaService.kt:168-216 | the body loop is the chunk layer composed with the response layer: it hands on `</think>` before the first decoded response and then each non-blank content up to the first `done`, and fails exactly when a size line is out of range before that |
| ChunkedReader.SkippedChunk | composeApp/src/jvmMain/kotlin/com/kashif/deepseek/data/local/service/OllamaService.kt:190-211 | a chunk that does not decode adds no response |
| ChunkedReader.DoneChunk | composeApp/src/jvmMain/kotlin/com/kashif/deepseek/data/local/service/OllamaService.kt:204-207 | a `done` response is the last one handed on |
| ChunkedReader.LiveChunk | composeApp/src/jvmMain/kotlin/com/kashif/deepseek/data/local/service/OllamaService.kt:190-208 | a response not `done` is followed by the responses of the later chunks; `</think>` is sent only once |
| ChunkedReader.NothingBlankHanded | composeApp/src/jvmMain/kotlin/com/kashif/deepseek/data/local/service/OllamaService.kt:195-202 | nothing handed to `onResponse` is blank |
| ChunkedReader.OpeningNotBlank | composeApp/src/jvmMain/kotlin/com/kashif/deepseek/data/local/service/OllamaService.kt:195-202 | `</think>` and the contents handed on are not blank |
| ChunkedReader.HexDigitChar | composeApp/src/jvmMain/kotlin/com/kashif/deepseek/data/local/service/OllamaService.kt:174-175 | each hex digit denotes its value |
| ChunkedReader.NatToHex | composeApp/src/jvmMain/kotlin/com/kashif/deepseek/data/local/service/OllamaService.kt:174 | a size written in hexadecimal consists of hex digits only |
| ChunkedReader.NatToHexValue | composeApp/src/jvmMain/kotlin/com/kashif/deepseek/data/local/service/OllamaService.kt:175 | reading the hexadecimal rendering gives the number back |
| ChunkedReader.SizeLineRead | composeApp/src/jvmMain/kotlin/com/kashif/deepseek/data/local/service/OllamaService.kt:172-176 | the size line of a non-empty chunk is one non-blank line that matches `[0-9a-fA-F]+`, is not `0`, and `toInt(16)` reads it as the size |
| ChunkedReader.ChunkedRoundTrip | composeApp/src/jvmMain/kotlin/com/kashif/deepseek/data/local/service/OllamaService.kt:168-216 | the chunk layer reads back exactly the frames written with chunked transfer encoding, whatever follows the body |
| ChunkedReader.LastChunkRead | composeApp/src/jvmMain/kotlin/com/kashif/deepseek/data/local/service/OllamaService.kt:213-214 | the `0` chunk ends the body |
| ChunkedReader.FrameRead | composeApp/src/jvmMain/kotlin/com/kashif/deepseek/data/local/service/OllamaService.kt:174-188 | one frame with its size line and line end is read as one chunk and reading goes on after it |
| ChunkedReader.ChunkAfterSize | composeApp/src/jvmMain/kotlin/com/kashif/deepseek/data/local/service/OllamaService.kt:177-188 | the chunk read is exactly the frame and the line end after it is dropped |
| ChunkedReader.ChunkedBodyHanded | composeApp/src/jvmMain/kotlin/com/kashif/deepseek/data/local/service/OllamaService.kt:151-226 | a chunked body is handed on as `</think>` and the non-blank contents of its responses up to the first `done`, and ends normally |
| ChunkedReader.HeadSkipped | composeApp/src/jvmMain/kotlin/com/kashif/deepseek/data/local/service/OllamaService.kt:159-163 | the head loop passes over non-empty header lines and stops after the empty line |
| Retry.Pow2 | composeApp/src/jvmMain/kotlin/com/kashif/deepseek/data/local/service/OllamaService.kt:245 | a power of two is at least 1 |
| Retry.ExecuteWithRetry | composeApp/src/jvmMain/kotlin/com/kashif/deepseek/data/local/service/OllamaService.kt:231-254 | the result, pauses and number of calls are those of `Attempts` with the message "Failed to execute <op> after <max> attempts" |
| Retry.RetryLoop | composeApp/src/jvmMain/kotlin/com/kashif/deepseek/data/local/service/OllamaService.kt:235-253 | the loop's result, pauses and number of calls equal `Attempts(message, maxRetries, block, 0, None)` |
| Retry.AttemptsStep | composeApp/src/jvmMain/kotlin/com/kashif/deepseek/data/local/service/OllamaService.kt:241-246 | a failed attempt before the last adds its pause (when another attempt follows) and continues with that failure as `lastException` |
| Retry.AttemptsCalls | composeApp/src/jvmMain/kotlin/com/kashif/deepseek/data/local/service/OllamaService.kt:238-247 | from retry count k the block runs at most `maxRetries - k` times, stops at its first success, and runs every time when none comes |
| Retry.AttemptsError | composeApp/src/jvmMain/kotlin/com/kashif/deepseek/data/local/service/OllamaService.kt:250-253 | when every attempt fails the error carries the last failure (or none without attempts) |
| Retry.AttemptsDelays | composeApp/src/jvmMain/kotlin/com/kashif/deepseek/data/local/service/OllamaService.kt:244-246 | a pause of `1000 * (1 shl k)` follows every failure k but the last |
| Retry.AttemptsOutcome | composeApp/src/jvmMain/kotlin/com/kashif/deepseek/data/local/service/OllamaService.kt:231-254 | at most `maxRetries` calls (none when it is not positive); success is the first success after failures only; otherwise every attempt failed and the `ConnectionError` carries the message and the last failure; the pauses double |
| Retry.DefaultRetriesAllFail | composeApp/src/jvmMain/kotlin/com/kashif/deepseek/data/local/service/OllamaService.kt:21-29 | with the default 3 retries and all attempts failing: three calls, pauses of 2000 and 4000 ms, and the error carries the third failure |
| Retry.Shl1 | composeApp/src/jvmMain/kotlin/com/kashif/deepseek/data/local/service/OllamaService.kt:245 | Kotlin's `1 shl k` on `Int`, which uses k mod 32: 2^(k mod 32) below 31, and -2^31 at 31 |
| Retry.BackoffDelay | composeApp/src/jvmMain/kotlin/com/kashif/deepseek/data/local/service/OllamaService.kt:244-246 | definition of the pause before retry k: `1000L * (1 shl k)` |
| Retry.Attempts | composeApp/src/jvmMain/kotlin/com/kashif/deepseek/data/local/service/OllamaService.kt:235-253 | definition of the loop from retry count k: once k reaches `maxRetries` the result is `ConnectionError` carrying the last failure; a success ends it after one call; a failure adds the pause for k + 1 when another attempt follows, then goes on |
| DesktopService.Sents | composeApp/src/jvmMain/kotlin/com/kashif/deepseek/data/local/service/OllamaService.kt:305 | one printed request per run |
| DesktopService.Connection.constructor | composeApp/src/jvmMain/kotlin/com/kashif/deepseek/data/local/service/OllamaService.kt:64-72 | a new `SocketConnection` has no socket or reader, an empty history and no context |
| DesktopService.DesktopOllamaService.constructor | composeApp/src/jvmMain/kotlin/com/kashif/deepseek/data/local/service/OllamaService.kt:53-74 | no chat sessions |
| DesktopService.DesktopOllamaService.CloseConnection | composeApp/src/jvmMain/kotlin/com/kashif/deepseek/data/local/service/OllamaService.kt:343-372 | an unknown id changes nothing; with `clearHistory` the session is forgotten; without it the session stays, with its history and context, but without an open socket |
| DesktopService.DesktopOllamaService.Connect | composeApp/src/jvmMain/kotlin/com/kashif/deepseek/data/local/service/OllamaService.kt:261-280 | the session's connection is found or created; without an open socket a new one is made (keeping the history and context), and when that fails the session is forgotten; an open socket's reader keeps what it still held, followed by the reply |
| DesktopService.DesktopOllamaService.ChatAttempt | composeApp/src/jvmMain/kotlin/com/kashif/deepseek/data/local/service/OllamaService.kt:260-326 | one run of the block: no socket, nothing printed or emitted and the session forgotten; otherwise the request carries the whole history plus the prompt and the old context, the placeholder and what `processResponse` hands on are emitted; on a chunk-size failure the session is forgotten, on success the answer (with its `</think>`) joins the history and the context is unchanged |
| DesktopService.DesktopOllamaService.Chat | composeApp/src/jvmMain/kotlin/com/kashif/deepseek/data/local/service/OllamaService.kt:259-342 | `chat` under `executeWithRetry`: outcome, pauses and calls equal `Attempts` over the runs' statuses; the flow carries everything every run emitted; when all runs fail the session is forgotten; on success the session holds the answered exchange of the last run |
| DesktopService.DesktopOllamaService.RunBlock | composeApp/src/jvmMain/kotlin/com/kashif/deepseek/data/local/service/OllamaService.kt:260-326 | run k of the block is `runs(k)`: forgets the session when it throws, otherwise the session is answered |
| DesktopService.DesktopOllamaService.ChatRetries | composeApp/src/jvmMain/kotlin/com/kashif/deepseek/data/local/service/OllamaService.kt:231-254 | the retry loop over the block's runs equals `Attempts`, with the printed requests and emissions of exactly the calls made |
| DesktopService.DesktopOllamaService.RetryForgotten | composeApp/src/jvmMain/kotlin/com/kashif/deepseek/data/local/service/OllamaService.kt:238-253 | the retries after a failed first run keep the `Attempts` correspondence; every retry finds the session forgotten |
| DesktopService.DesktopOllamaService.RetryStep | composeApp/src/jvmMain/kotlin/com/kashif/deepseek/data/local/service/OllamaService.kt:239-246 | one pass of the retry loop: the block's run, its pause when it throws and another attempt follows, or the success that ends the loop |
| DesktopService.DesktopOllamaService.Exchange | composeApp/src/jvmMain/kotlin/com/kashif/deepseek/data/local/service/OllamaService.kt:282-318 | on an open connection: the request carries the history plus the prompt and the context; the placeholder and the answer are emitted; on failure the session is forgotten; on success the answer joins the history, the context is kept and the reader is drained |
| DesktopService.ChunkedReplyAnswered | composeApp/src/jvmMain/kotlin/com/kashif/deepseek/data/local/service/OllamaService.kt:151-226 | for a chunked reply `processResponse` succeeds, handing on `</think>` and then the non-blank contents up to the first `done` |
| DesktopService.StoredAnswer | composeApp/src/jvmMain/kotlin/com/kashif/deepseek/data/local/service/OllamaService.kt:310-317 | the assistant message kept in the history opens with `</think>` whenever the server sent a response, and is empty otherwise |
| DesktopService.EmissionsGrow | composeApp/src/jvmMain/kotlin/com/kashif/deepseek/data/local/service/OllamaService.kt:259-327 | what an earlier run emitted stays at the front of the flow |
| DesktopService.RetryRepeatsPlaceholder | composeApp/src/jvmMain/kotlin/com/kashif/deepseek/data/local/service/OllamaService.kt:259-327 | when the first run fails on a chunk size and the retry connects, the flow carries everything the first run emitted followed by the thinking placeholder a second time |
| DesktopService.RetryForgetsHistory | composeApp/src/jvmMain/kotlin/com/kashif/deepseek/data/local/service/OllamaService.kt:321-324 | a retry finds the session forgotten: its request carries only the prompt and no context, its reader only the new reply, and on success the history holds only this exchange |
| DesktopService.Run | composeApp/src/jvmMain/kotlin/com/kashif/deepseek/data/local/service/OllamaService.kt:266-316 | definition of one run of the retried block: a socket that cannot be opened throws before anything is written; otherwise the request with the prompt added to the history is written, the thinking placeholder and what `processResponse` hands on are emitted, and a bad chunk size throws |
| DesktopService.Answered | composeApp/src/jvmMain/kotlin/com/kashif/deepseek/data/local/service/OllamaService.kt:281-318 | definition of the session after a run that returned: the prompt and the concatenated answer join the history, the context is kept, the socket is open and its reader empty |
| DesktopService.Emissions | composeApp/src/jvmMain/kotlin/com/kashif/deepseek/data/local/service/OllamaService.kt:259-327 | definition of what the runs emit into the flow: each run's emissions, one run after another |
| Markdown.TrimRegexSpaceEnd | composeApp/src/jvmMain/kotlin/com/kashif/deepseek/presentation/MarkdownFixer.kt:42-43 | the trailing `\s*` a table pattern allows: a prefix with no regex space at its end, everything cut being regex space |
| Markdown.FirstPrefix | composeApp/src/jvmMain/kotlin/com/kashif/deepseek/presentation/MarkdownFixer.kt:176-178 | `find { startsWith }`: the first marker, in order, that the line starts with; none exactly when it starts with no marker |
| Markdown.Flags | composeApp/src/jvmMain/kotlin/com/kashif/deepseek/presentation/MarkdownFixer.kt:110-111 | one flag per line, set exactly for the fence lines |
| Markdown.States | composeApp/src/jvmMain/kotlin/com/kashif/deepseek/presentation/MarkdownFixer.kt:310-313 | the fence state starts outside a block and is toggled at each fence line |
| Markdown.StatesToggled | composeApp/src/jvmMain/kotlin/com/kashif/deepseek/presentation/MarkdownFixer.kt:310-313 | each state equals the toggling over the lines before it |
| Markdown.SetCount | composeApp/src/jvmMain/kotlin/com/kashif/deepseek/presentation/MarkdownFixer.kt:110-112 | the number of fence lines never exceeds the number of lines |
| Markdown.ToggledIsOddCount | composeApp/src/jvmMain/kotlin/com/kashif/deepseek/presentation/MarkdownFixer.kt:108-112 | the text ends inside a code block exactly when an odd number of its lines are fences, and a fence has been seen exactly when that number is positive |
| Markdown.AnySetSnoc | composeApp/src/jvmMain/kotlin/com/kashif/deepseek/presentation/MarkdownFixer.kt:110-113 | a fence has been seen after one more line exactly when it had been or that line is one |
| Markdown.ToggleFences | composeApp/src/jvmMain/kotlin/com/kashif/deepseek/presentation/MarkdownFixer.kt:108-128 | the loop ends in a code block exactly when the toggling does, and the language is read from the last line once any fence opened a block |
| Markdown.AnalyzeText | composeApp/src/jvmMain/kotlin/com/kashif/deepseek/presentation/MarkdownFixer.kt:102-195 | `analyzeText` returns `Analysis(text)`, the classification of the text's last line against its fence state |
| Markdown.AnalyzeLines | composeApp/src/jvmMain/kotlin/com/kashif/deepseek/presentation/MarkdownFixer.kt:103-195 | the same, once the text is split into lines |
| Markdown.HeaderMarkersHash | composeApp/src/jvmMain/kotlin/com/kashif/deepseek/presentation/MarkdownFixer.kt:35 | every header marker starts with `#` |
| Markdown.HeaderDepthIsOne | composeApp/src/jvmMain/kotlin/com/kashif/deepseek/presentation/MarkdownFixer.kt:157-178 | since `#` is the first marker tried, a header's depth is always 1: depth is 1 exactly for a line starting with `#` outside a code block, and 0 otherwise |
| Markdown.CodeBlockGuards | composeApp/src/jvmMain/kotlin/com/kashif/deepseek/presentation/MarkdownFixer.kt:143-194 | inside an open code block the last line is classified as code only: every guarded flag is false and the depth and levels are 0, while the unguarded table divider flag still follows the line |
| Markdown.LineLevels | composeApp/src/jvmMain/kotlin/com/kashif/deepseek/presentation/MarkdownFixer.kt:131-132 | outside a code block the blockquote level is the line's run of `>` and the list level half its run of leading whitespace |
| Markdown.CountCharAppend | composeApp/src/jvmMain/kotlin/com/kashif/deepseek/presentation/MarkdownFixer.kt:139 | `count` distributes over concatenation |
| Markdown.TableColumns | composeApp/src/jvmMain/kotlin/com/kashif/deepseek/presentation/MarkdownFixer.kt:135-139 | a table row has as many columns as bars minus one, at least one; any other line has 0 |
| Markdown.NextLineIsLastLine | composeApp/src/jvmMain/kotlin/com/kashif/deepseek/presentation/MarkdownFixer.kt:104-105 | the "next line" is the last line again, so both markdown-start flags coincide for a last line without trailing whitespace |
| Markdown.CalculateNewlines | composeApp/src/jvmMain/kotlin/com/kashif/deepseek/presentation/MarkdownFixer.kt:208-262 | crossing a fence boundary gives 2, two fences 1; 0 only between table rows at a header or divider; outside fences 2 exactly around headers and rules, before definitions and footnotes, and before a section start after punctuation |
| Markdown.CalculateIndent | composeApp/src/jvmMain/kotlin/com/kashif/deepseek/presentation/MarkdownFixer.kt:264-273 | list level times 2 for a list item, else blockquote level times 2, else 4 for a definition or footnote, else 0; always even |
| Markdown.DetermineFormatting | composeApp/src/jvmMain/kotlin/com/kashif/deepseek/presentation/MarkdownFixer.kt:275-289 | both texts are analysed and the decision is drawn from the two classifications |
| Markdown.DecisionCoherent | composeApp/src/jvmMain/kotlin/com/kashif/deepseek/presentation/MarkdownFixer.kt:279-307 | a missing language is only asked for with a blank line and spacing kept; a deeper list or blockquote is indented by its level; no break implies table alignment and kept spacing |
| Markdown.CodeLinesDecision | composeApp/src/jvmMain/kotlin/com/kashif/deepseek/presentation/MarkdownFixer.kt:208-307 | two non-fence lines inside an open code block are separated by one break, without indentation or other changes |
| Markdown.TrimTrimmed | composeApp/src/jvmMain/kotlin/com/kashif/deepseek/presentation/MarkdownFixer.kt:317-318 | `trim()` is idempotent |
| Markdown.MarkedFence | composeApp/src/jvmMain/kotlin/com/kashif/deepseek/presentation/MarkdownFixer.kt:316-324 | a fence marker followed by a trimmed info string is a fence line starting with the marker |
| Markdown.FenceOutputStable | composeApp/src/jvmMain/kotlin/com/kashif/deepseek/presentation/MarkdownFixer.kt:312-327 | the cleaned fence line is still a fence line, and cleaning it again changes nothing |
| Markdown.CleanedLines | composeApp/src/jvmMain/kotlin/com/kashif/deepseek/presentation/MarkdownFixer.kt:311-348 | one output line per input line |
| Markdown.CleanLines | composeApp/src/jvmMain/kotlin/com/kashif/deepseek/presentation/MarkdownFixer.kt:310-348 | each line is cleaned against the fence state before it: fences normalised, lines inside a block kept, the others rewritten |
| Markdown.CleanupFormatting | composeApp/src/jvmMain/kotlin/com/kashif/deepseek/presentation/MarkdownFixer.kt:309-350 | the cleaned lines joined with line feeds, trailing whitespace dropped |
| Markdown.CleanedLinesKeepBlocks | composeApp/src/jvmMain/kotlin/com/kashif/deepseek/presentation/MarkdownFixer.kt:309-350 | every fence line stays a fence line, every line inside an open code block is emitted unchanged, and every other line is rewritten |
| Markdown.Classify | composeApp/src/jvmMain/kotlin/com/kashif/deepseek/presentation/MarkdownFixer.kt:131-194 | definition of the `FormatContext` for the last line: inside an open code block every flag is false except the code-block flag and those read whatever the block state (fence, divider, table header, column count); the header depth is the length of the first header marker found, the list level half the leading whitespace, the quote level the leading `>` count, the column count one less than the line's bars, and a table row after a divider line is a header; the inline-pattern flags are parameters |
| Markdown.IsTableRowLine | composeApp/src/jvmMain/kotlin/com/kashif/deepseek/presentation/MarkdownFixer.kt:42 | `^\|.*\|\s*$` on the whole line: after the trailing `\s` run, a bar, characters that are not line terminators, and a bar |
| Markdown.IsTableDividerLine | composeApp/src/jvmMain/kotlin/com/kashif/deepseek/presentation/MarkdownFixer.kt:43 | `^\|[-:| ]+\|\s*$` on the whole line: after the trailing `\s` run, a bar, at least one of `-`, `:`, `|` or space, and a bar |
| Markdown.IsNumberLine | composeApp/src/jvmMain/kotlin/com/kashif/deepseek/presentation/MarkdownFixer.kt:41 | `^\d+\.` on the whole line, since `matches` is used: digits and a final dot with nothing after it, so `1. item` is not numbered here |
| Markdown.IsTaskLine | composeApp/src/jvmMain/kotlin/com/kashif/deepseek/presentation/MarkdownFixer.kt:44 | `^- \[[ xX]]\]` as written: the class `[ xX]` is followed by a literal `]]`, and `matches` asks for the whole line, so only the lines `- [ ]]`, `- [x]]` and `- [X]]` are task items; `- [x] item` is not |
| Markdown.IsFootnoteLine | composeApp/src/jvmMain/kotlin/com/kashif/deepseek/presentation/MarkdownFixer.kt:45 | `^\[\^[\w-]+\]:` on the whole line: `[^`, one or more word characters or hyphens, `]:` and nothing after |
| Markdown.IsDefinitionLine | composeApp/src/jvmMain/kotlin/com/kashif/deepseek/presentation/MarkdownFixer.kt:46 | `^[\w-]+:(?:\s|$)` on the whole line: word characters or hyphens, a colon, then nothing or a single `\s` |
| Markdown.IsListLine | composeApp/src/jvmMain/kotlin/com/kashif/deepseek/presentation/MarkdownFixer.kt:154-156 | the trimmed line starts with `- `, `* ` or `+ `, or is a numbered line |
| Markdown.IsFenceLine | composeApp/src/jvmMain/kotlin/com/kashif/deepseek/presentation/MarkdownFixer.kt:111 | after leading whitespace the line starts with three backticks or three tildes |
| Markdown.Language | composeApp/src/jvmMain/kotlin/com/kashif/deepseek/presentation/MarkdownFixer.kt:115-125 | the trimmed text after a leading fence marker when the line is longer than the marker; none otherwise |
| Markdown.ShouldAddCodeBlockLanguage | composeApp/src/jvmMain/kotlin/com/kashif/deepseek/presentation/MarkdownFixer.kt:291-292 | definition: a fence opens (only the next context is fenced) and it names no language |
| Markdown.ShouldPreserveSpacing | composeApp/src/jvmMain/kotlin/com/kashif/deepseek/presentation/MarkdownFixer.kt:294-295 | definition: either context is fenced, a table row, or has inline code |
| Markdown.ShouldAlignTable | composeApp/src/jvmMain/kotlin/com/kashif/deepseek/presentation/MarkdownFixer.kt:297-298 | definition: both are table rows, or a table header meets a divider |
| Markdown.ShouldAddTableDivider | composeApp/src/jvmMain/kotlin/com/kashif/deepseek/presentation/MarkdownFixer.kt:300-301 | definition: a table header not followed by a divider |
| Markdown.ShouldIndentBlockquote | composeApp/src/jvmMain/kotlin/com/kashif/deepseek/presentation/MarkdownFixer.kt:303-304 | definition: the next is a blockquote nested deeper than the current |
| Markdown.ShouldIndentList | composeApp/src/jvmMain/kotlin/com/kashif/deepseek/presentation/MarkdownFixer.kt:306-307 | definition: the next is a list item nested deeper than the current |
| Markdown.Decide | composeApp/src/jvmMain/kotlin/com/kashif/deepseek/presentation/MarkdownFixer.kt:279-288 | definition of the `FormattingDecision` for two contexts, each field from its helper |
| Markdown.HeadingOrRule | composeApp/src/jvmMain/kotlin/com/kashif/deepseek/presentation/MarkdownFixer.kt:223-224 | definition: the context is a header or a horizontal rule |
| Markdown.FenceOutput | composeApp/src/jvmMain/kotlin/com/kashif/deepseek/presentation/MarkdownFixer.kt:315-327 | definition: a fence at column 0 becomes its marker followed by its trimmed info string (the bare marker when that is empty); an indented fence line is kept |
| Markdown.NormalisedFence | composeApp/src/jvmMain/kotlin/com/kashif/deepseek/presentation/MarkdownFixer.kt:312-327 | definition: `FenceOutput` on fence lines, any other line unchanged |
| Markdown.CleanLine | composeApp/src/jvmMain/kotlin/com/kashif/deepseek/presentation/MarkdownFixer.kt:311-348 | definition of one line of `cleanupFormatting`: a fence line is normalised, a line inside an open block is kept, any other line goes through the rewriting chain, which is a parameter |

## Left out

- Compose UI, Koin wiring, the SQLDelight drivers, `DatabaseWrapper` and the repositories are left out. Database writes are recorded as the rows passed to them; nothing is persisted or read back.
- Sockets, readers and writers become strings: the reply is a parameter, and `createSocket` is a parameter saying whether it succeeds. Socket timeouts, `reader.ready()` and partial reads from the network are not modelled.
- Coroutines, `Mutex`, `Flow.buffer`/`flowOn` and `viewModelScope.launch` are not modelled. Operations run in sequence. `delay` becomes a returned list of durations.
- Logging and `println` are left out.
- JSON encoding and decoding are kept as function parameters; kotlinx.serialization is not part of this model.
- The emphasis, strong, link, image and inline-code regexes are kept as parameters. So is the replacement chain in `cleanupFormatting`. Their regex semantics are not modelled.
- `listModels`, `pullModel`, `removeModel`, `showModelInfo`, `embed` and `closeAllConnections` are left out. They are thin request/response wrappers; the `executeWithRetry` and `extractResponseBody` they use are modelled.
- Ktor's `HttpRequestRetry` and `HttpTimeout` plugins are left out: their behaviour is library code.
- CommonViewModel.ChatViewModel: does not own a `ChatJobManager` object. Its jobs field is the abstract registry (`Registry<Uuid>`), which `JobManager.ChatJobManager` is proved to refine; job cancellation inside it is not tracked.
- CommonViewModel.ChatViewModel.RenameSession: applies the rename at once. The repository write and the reload of `observeSessions` are not modelled; the same holds for `UpdateMessage` and the Flow-driven reload of the message list.
- JvmViewModel.JvmTitle: counts Unicode characters, not UTF-16 code units, so `substring(0..20)` and `length > 20` differ from the code for text outside the Basic Multilingual Plane.
- CommonViewModel.NewSessionTitle: `take(50)` counts Unicode characters, not UTF-16 code units.
- ChunkedReader.ReadChunk: chunk sizes count characters, not the UTF-16 units of a `CharArray` read, so for text outside the Basic Multilingual Plane the chunk boundaries differ.
- HttpMessage.ReadExactly: `Content-Length` is counted in characters, as the code's `CharArray` read does, not in bytes.
- Text.ParseInt: accepts ASCII digits only, whereas Kotlin's `toInt()` also accepts other Unicode decimal digits.
- Lower-casing (`lowercase()`) is modelled on ASCII letters only.
- Extra request headers are a sequence: the iteration order of the Kotlin map is taken as given.
- CommonViewModel.ChatViewModel.OnCleared: runs the body that `onCleared()` starts with `viewModelScope.launch` (ChatViewModel.kt:217-224). androidx cancels `viewModelScope` before it calls `onCleared()`, so in the program that body most likely never runs and the jobs are not cancelled there.
- Exceptions are classified into the kinds the `catch` blocks test (`StreamDecoder.FailureKind`, `DesktopService.AttemptFailure`); the JVM exception class hierarchy is not modelled.

## Findings

| source | as written | input that shows it | evidently intended | confidence | as-written member | corrected member |
|---|---|---|---|---|---|---|
| composeApp/src/commonMain/kotlin/com/kashif/kollama/presentation/utils/JobManager.kt:105-124 | `addJob` pushes a new node and overwrites the map entry even when the session already has a job, without removing the old node or cancelling the old job | `sendMessage` twice in one session (ChatViewModel.kt:104-105) lists its id twice under one map entry. Then six new sessions: the fifth evicts the older node and with it the session's live entry, cancelling its second job (`DuplicateAddEvictsLive`); the sixth evicts the remaining node, whose id has no entry, so nothing leaves the map and it holds 6 entries, above `MAX_CONCURRENT_CHATS` = 5. Separately, two sends and no new session: the first job's `finally { removeJob }` drops the entry of the second job and cancels it, and one node of the id stays listed (`DuplicateAddThenRemoveLeavesStale`) | an id already present is removed (and its job cancelled) before the new job is added, so the map never exceeds 5 entries and the list holds each id once | not executed | JobManager.DuplicateAddExceedsCapacity | JobManager.ChatJobManager.AddJobReplacing |
