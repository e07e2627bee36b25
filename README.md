# chatgpt-like, modelled in Dafny

This project models the core of the chatgpt-like client. The client is a chat UI
for an OpenAI-compatible completion endpoint, and it comes in two variants:
a React single-page app and a Blazor WebAssembly app. The model covers three
pieces:

- **The chat store** (`src/stores/chatStore.ts`): one mutable state record with
  sessions, the current session, the visible messages, the input, the send
  flag, the edit mark, the system prompt, model settings and usage. It is
  modelled as the class `Store.ChatStore`, whose methods are the store's
  actions. The completion stream is an input: the text increments it yields
  and how it ended (`Completed` or `Failed(message)`). Every session list handed
  to `StorageService.saveSessions` is appended to a ghost log `saved`.
- **The completion services**, in both clients:
  - `src/services/chatService.ts` (module `ChatService`) covers:
    - the request body;
    - the per-line parser of the `data: ` event stream, which splits each
      network chunk on `\n` on its own;
    - the read loop of `getResponseStreaming`;
    - the model-list normaliser and the usage extractor.
  - `src/Sample.Wasm/Services/ChatService.cs` (module `ChatServiceCs`) covers:
    - the `foreach` loops of `GetModelsAsync` and `GetResponseAsync`;
    - `GetUsageAsync`;
    - `UsageInfo.PremiumRequestsUsed`, computed in unchecked 32-bit arithmetic.
  - Replies are a small JSON datatype (module `JsonValue`).
- **Two-tier persistence**:
  - `src/services/storageService.ts` (module `Persistence`) has:
    - an IndexedDB-backed `ChatStorage` class;
    - a `LocalStorage` class;
    - the `StorageService` facade, which falls back to `localStorage` when
      IndexedDB throws.
  - `src/Sample.Wasm/wwwroot/js/indexeddb.js` (module `IndexedDbJs`) has the
    same kind of `ChatStorage` class and the `window.*` wrappers that .NET
    calls.
  - Both use the browser database `ChatAppDB`, modelled in module `IndexedDb`
    as the class `Database`. Its sessions store is a key-sorted sequence of
    entries, because `getAll` returns records in key order. Its settings store
    is a map.
  - `saveSessions` is one read-write transaction: a `clear`, then one `add` per
    input. Its result is described by the function `Fill` over the steps.
    - A rejected input (an empty id) throws after the `clear` and the earlier
      `add`s. The transaction then commits what it holds.
    - A duplicate key fails its `add` request, and the transaction aborts and
      rolls back.

Supporting modules:

- `Text`: ECMAScript `trim`, .NET whitespace, split/join on a separator,
  `includes`, order-preserving deduplication, and decimal text for times.
- `ChatTypes`: roles, messages, sessions, DTOs, times as milliseconds, and
  `localStorage` values.
- `Wrappers`: `Option` and `Result`.

Nondeterministic and external inputs become parameters:

- the clock (`now: Instant`);
- `generateId` (`freshId`);
- whether `indexedDB.open` succeeds (`openOk`);
- the replies of the network calls;
- the parser of a stream payload (`parse: string -> Option<Json>`).

## Model

| member | source | states |
|---|---|---|
| Store.NewSession | src/stores/chatStore.ts:203-210 | A new session has the fresh id, the title "새 대화", the given time, and a history holding the system prompt alone; the prompt is also its `systemMessage`. |
| Store.TitleFromSpec | src/stores/chatStore.ts:275-277 | A text of at most 20 characters is its own title. A longer one keeps its first 20 characters followed by '…', so the title is 21 long. Shortening a title again changes nothing. |
| Store.FirstWhere | src/stores/chatStore.ts:625 | `findIndex`, used for the system message here and for a session id at line 226. The index is the first one whose element satisfies the test, or -1 exactly when none does. |
| Store.WithSessionSpec | src/stores/chatStore.ts:280-282 | Writing a session back keeps the length and every id in place. The updated session replaces the one with its id, and all other sessions are kept. Distinct ids stay distinct. |
| Store.WithoutId | src/stores/chatStore.ts:246 | The filtered list holds exactly the sessions whose id differs, and it is no longer than the input. |
| Store.WithoutAbsentId | src/stores/chatStore.ts:246 | Filtering out an id no session has returns the list unchanged. |
| Store.WithoutIdSpec | src/stores/chatStore.ts:246 | When ids are distinct, the filter removes at most one session and the ids stay distinct. |
| Store.RemoveAtSpec | src/stores/chatStore.ts:500 | Deleting message `index` keeps the messages before it, shifts the ones after it down by one, and loses exactly that message (as a multiset). |
| Store.EditMarkFollowsMessage | src/stores/chatStore.ts:504-507 | An edit mark on any other message still points at that same message after the deletion. |
| Store.SetSystemTextSpec | src/stores/chatStore.ts:624-630 | Afterwards the first system message carries the prompt and no other message changes. A system message is put first only when there was none. Setting twice is the same as setting once with the second text. |
| Store.EffectiveModel | src/stores/chatStore.ts:705-708 | A chosen model is used as it is. With nothing chosen, it is the first listed model, or 'gpt-4o' when the list is empty. It is empty exactly when nothing is chosen and the list starts with an empty name. |
| Store.ListedModelsNeverBlockSend | src/stores/chatStore.ts:705-708 | With a model list that came from `getModels`, the effective model is never empty, so the 'select a model' error cannot occur. The result is the chosen model, a listed one, or the fallback. |
| Store.ReadModelSettings | src/stores/chatStore.ts:572-593 | Without a stored JSON item, the settings are temperature 1.0 and no token limit. |
| Store.SettingsRoundTrip | src/stores/chatStore.ts:572-607 | Settings written by `saveModelSettings` are read back unchanged by `loadModelSettings`, with and without a token limit. |
| Store.StoredSystemMessage | src/stores/chatStore.ts:158-160 | The start-up prompt is never empty: it is the stored text, or the default prompt when that text is missing or empty. |
| Store.WriteBackConsistent | src/stores/chatStore.ts:345-361 | Writing back a session with the current id keeps the invariant: the current session has the current id and is in the list. |
| Store.SendOutcomes | src/stores/chatStore.ts:303-388 | A send while one is running, or with a blank input, changes nothing. A send without a model only sets the error. A send that starts ends in the completed or the interrupted state, according to the stream's outcome. |
| Store.AnsweredRecordsExchange | src/stores/chatStore.ts:319-365 | After a completed stream, the messages are the old ones plus the trimmed prompt and the concatenated reply, and the input is empty. The current session's history equals those messages. Its title is the snapshot's title, so the title set during the send is lost. |
| Store.InterruptedSkipsWriteBack | src/stores/chatStore.ts:371-384 | A failed or cancelled send leaves the sessions and the current session as they were, while the messages start with the prompt. A cancellation sets no error and keeps the partial reply, as the assistant message right after the prompt. Any other failure sets the error, keeps a non-empty reply there and drops an empty one. |
| Store.WriteBackOverrides | src/stores/chatStore.ts:345-361 | A later write-back of the same session overrides an earlier one completely; this is how the retitling is lost. |
| Store.SessionsLoadedSpec | src/stores/chatStore.ts:154-192 | After start-up the first session is current, its history is on screen, and the state is consistent. With nothing loaded, there is one new session whose history is the non-empty stored prompt. |
| Store.StartupModelNonEmpty | src/stores/chatStore.ts:135-152 | The model chosen at start-up from a fetched list is never the empty string. |
| Store.ChatStore.constructor | src/stores/chatStore.ts:94-114 | The initial state: no sessions, no model, temperature 1.0, the default system prompt, and nothing saved. |
| Store.ChatStore.SaveSessions | src/stores/chatStore.ts:292-295 | The current session list is appended to the log of saved lists. |
| Store.ChatStore.InitializeApp | src/stores/chatStore.ts:117-198 | The model list and the chosen model's settings, the loaded sessions (or a new one) and the usage are installed, and the state is consistent. |
| Store.ChatStore.LoadModels | src/stores/chatStore.ts:135-152 | The fetched list is kept and its first model chosen with its settings. When the fetch fails, the last model used is chosen. |
| Store.ChatStore.LoadSessions | src/stores/chatStore.ts:154-192 | The first loaded session, or a new one carrying the stored prompt, becomes current with its history on screen. A non-empty session prompt replaces the store's prompt. |
| Store.ChatStore.NewChat | src/stores/chatStore.ts:201-221 | A new session with the current prompt is put first and becomes current, its history is on screen, and the list is saved. |
| Store.ChatStore.SwitchSession | src/stores/chatStore.ts:224-239 | An unknown id changes nothing. Otherwise the first session with that id becomes current, its history is shown, and its non-empty prompt becomes the store's. |
| Store.ChatStore.DeleteSession | src/stores/chatStore.ts:242-266 | With at most one session nothing happens. Otherwise exactly the sessions with that id are removed and the list is saved. If the deleted session was current, the new first session becomes current and its history is shown. `ok` is false exactly where the source throws: the deleted id was current and no session with another id remains. |
| Store.ChatStore.UpdateSessionTitle | src/stores/chatStore.ts:269-289 | The current session is retitled from its first user message and re-timed, in the list and as current. Without a current session or a user message, nothing changes. |
| Store.ChatStore.SetUserInput | src/stores/chatStore.ts:298-300 | The input is replaced. |
| Store.ChatStore.SendMessage | src/stores/chatStore.ts:303-388 | The new state is `AfterSend` of the old state and the stream's outcome, and the send flag is cleared on every exit. The request is made exactly when the send starts: the history is the old messages plus the prompt, without the assistant placeholder, and the model is the effective one. The list is saved and LAST_MODEL is written exactly when the stream completed. |
| Store.ChatStore.SendCompleted | src/stores/chatStore.ts:315-369 | A started send whose stream completed ends in the `Answered` state, is saved, and remembers its model. |
| Store.ChatStore.SendInterrupted | src/stores/chatStore.ts:315-342 | A started send whose stream threw ends in the `Interrupted` state, with the send flag cleared. |
| Store.ChatStore.BeginStream | src/stores/chatStore.ts:315-342 | The trimmed prompt and the assistant message carrying the whole reply follow the old messages; the input and the error are cleared. |
| Store.ChatStore.ReceiveReply | src/stores/chatStore.ts:329-342 | After the loop, the reply is the concatenation of all increments, and the last message is the assistant's reply. |
| Store.ChatStore.CompleteSend | src/stores/chatStore.ts:344-369 | The snapshot session, with the final messages and the new time, is written back. The list is saved, LAST_MODEL is set and the usage is reloaded. |
| Store.ChatStore.InterruptSend | src/stores/chatStore.ts:371-384 | A cancellation changes nothing. Any other failure sets the error and removes a trailing empty assistant message. |
| Store.ChatStore.WriteBackAnswer | src/stores/chatStore.ts:344-363 | The written-back session is the one taken before the title update, carrying the new history and time. The retitled session does not survive. |
| Store.ChatStore.WriteBackCurrent | src/stores/chatStore.ts:354-361 | The updated session replaces the current one in the list and as current, and the invariant holds. |
| Store.ChatStore.ResendMessage | src/stores/chatStore.ts:532-552 | An index out of range or not on a user message changes nothing. Otherwise the edit state is cleared and the messages are cut to before that index. The message's text becomes the input and the send proceeds as `AfterSend` of that state. |
| Store.ChatStore.StartEditMessage | src/stores/chatStore.ts:391-397 | The mark is the index and the edit text is that message's text, or empty when there is no message at that index. |
| Store.ChatStore.SaveEditMessage | src/stores/chatStore.ts:400-453 | Only the marked index can be saved, whatever its value. A marked message in the list gets the edit text, and an edited system message also becomes the store's and the session's prompt. A mark outside the list changes no message of the list. Either way the mark and the edit text are cleared, the current session is written back with a new time, and the list is saved. |
| Store.ChatStore.CancelEditMessage | src/stores/chatStore.ts:456-461 | The mark and the edit text are cleared. |
| Store.ChatStore.DeleteMessage | src/stores/chatStore.ts:464-529 | A system message keeps its place, gets the default prompt, and resets the store's prompt. Any other message is removed, and the edit mark is cleared if it was on it or shifted if it was after it. The session is written back and saved. `ok` is false exactly for an index out of range. |
| Store.ChatStore.SetSelectedModel | src/stores/chatStore.ts:555-558 | The model is selected and its stored settings (or the defaults) are loaded. |
| Store.ChatStore.SetTemperature | src/stores/chatStore.ts:561-564 | The temperature is set, and the settings of the selected model are stored as JSON. |
| Store.ChatStore.SetMaxTokens | src/stores/chatStore.ts:567-569 | The token limit is replaced. |
| Store.ChatStore.LoadModelSettings | src/stores/chatStore.ts:572-593 | For a selected model, the settings are those `ReadModelSettings` reads from its stored item. Without a selected model, nothing changes. |
| Store.ChatStore.SaveModelSettings | src/stores/chatStore.ts:596-607 | The selected model's temperature and limit are stored under `MODEL_SETTINGS::<model>`, and nothing else is written. |
| Store.ChatStore.SetSystemMessage | src/stores/chatStore.ts:610-646 | The prompt is stored and remembered. The current session's first system message (or a new first message) carries it, in the messages and in the written-back session, and the list is saved. |
| Store.ChatStore.LoadUsage | src/stores/chatStore.ts:687-702 | While a load is running nothing changes; otherwise the usage is the service's answer, and the loading flag ends as it began. |
| ChatService.WireMessage | src/services/chatService.ts:78-81 | The wire message carries the role name and the text as `content`. |
| ChatService.RequestBody | src/services/chatService.ts:78-92 | The body carries the model, the temperature, `stream: true`, and one wire message per history entry in order. `max_tokens` is present exactly when the limit is set and non-zero (truthy). |
| ChatService.PayloadAction | src/services/chatService.ts:156-172 | Only non-empty content is ever yielded. |
| ChatService.PayloadActionSpec | src/services/chatService.ts:156-172 | A payload ends the stream exactly when its first choice has a truthy `finish_reason`. Otherwise it yields the non-empty string `delta.content`. |
| ChatService.LineActionOf | src/services/chatService.ts:140-178 | A line never yields empty text. |
| ChatService.LineActionSpec | src/services/chatService.ts:140-178 | Lines without the `data: ` prefix are skipped. A trimmed payload of `[DONE]` finishes the stream. An empty or unparsable payload is skipped. Any other payload acts as `PayloadAction` says. |
| ChatService.Run | src/services/chatService.ts:140-178 | Whatever is yielded comes from a yielding action of the input. |
| ChatService.RunSpec | src/services/chatService.ts:140-178 | The yields are the contents of the actions before the first `Finish`, in order, and the scan is finished exactly when there is a `Finish`. |
| ChatService.RunFinishedPrefix | src/services/chatService.ts:145-161 | Once a prefix of the actions has returned, the actions after it change nothing. |
| ChatService.RunAppend | src/services/chatService.ts:140-181 | Running two action lists one after the other is running the first, then the second only if the first did not return. |
| ChatService.Actions | src/services/chatService.ts:140 | There is one action per line, in order. |
| ChatService.ActionsAppend | src/services/chatService.ts:140 | The actions of joined line lists are the joined action lists. |
| ChatService.ScanLines | src/services/chatService.ts:140-180 | The lines of one chunk never yield empty text. |
| ChatService.ScanChunks | src/services/chatService.ts:125-181 | Reading chunk by chunk never yields empty text. |
| ChatService.ScanChunksFinishedPrefix | src/services/chatService.ts:125-181 | After a chunk ends the stream, later chunks are never read. |
| ChatService.ScanChunksIsScanOfLines | src/services/chatService.ts:137-140 | Reading chunk by chunk is the same as reading the concatenation of each chunk's own line list, with no carry-over between chunks. |
| ChatService.ReadLines | src/services/chatService.ts:140-180 | The loop over one chunk's lines yields and finishes exactly as `ScanLines` says. |
| ChatService.GetResponseStreaming | src/services/chatService.ts:67-196 | The sent body, the increments and the way the generator ends are those of `Stream`. That covers the model check, the HTTP and null-body errors, the abort check, the chunk loop and the surfacing of errors. |
| ChatService.Surface | src/services/chatService.ts:185-195 | An AbortError becomes 'Request was cancelled'. A message containing 'NetworkError' becomes 'Network connection lost during streaming'. Any other error keeps its message. |
| ChatService.FinishReasonWinsOverContent | src/services/chatService.ts:156-171 | A payload with both a finish reason and content ends the stream without yielding the content. |
| ChatService.AbortSurfacesAsCancellation | src/services/chatService.ts:133-135 | An aborted request ends the stream with 'Request was cancelled', which contains "cancelled". |
| ChatService.ChunkBoundaryLosesLine | src/services/chatService.ts:137-139 | A data line read whole yields its content. The same line cut by a chunk boundary yields nothing. |
| ChatService.CutLineYieldsNothing | src/services/chatService.ts:174-177 | The unparsable first half of a cut data line and the prefix-less second half are both skipped. |
| ChatService.UnparsableLineSkips | src/services/chatService.ts:174-177 | A data line whose payload does not parse is skipped. |
| ChatService.NonDataLineSkips | src/services/chatService.ts:141 | A line without the `data: ` prefix is skipped. |
| ChatService.WholeLineYields | src/services/chatService.ts:137-171 | A chunk holding one data line with content yields exactly that content. |
| ChatService.ThreeLineExample | src/services/chatService.ts:140-171 | The lines content "A", a finish reason, and `[DONE]` yield ["A"] and finish. |
| ChatService.DoneLineFinishes | src/services/chatService.ts:144-146 | `data: [DONE]` finishes the stream. |
| ChatService.NonEmptyStrings | src/services/chatService.ts:40 | The kept values are exactly the non-empty strings of the input. |
| ChatService.NonEmptyStringsCount | src/services/chatService.ts:40 | Each non-empty string is kept as often as it occurs: the filter does not deduplicate. |
| ChatService.NonEmptyStringsAppend | src/services/chatService.ts:40 | The filter keeps input order: filtering a concatenation concatenates the filtered parts. |
| ChatService.IdsOf | src/services/chatService.ts:39 | There is one `id` read per item, in order. |
| ChatService.GetModelsSpec | src/services/chatService.ts:18-64 | Every model is a non-empty name. Ids from `data` come back deduplicated in first-occurrence order and exactly cover the listed ids. When `data` lists no id, the result is the `models` fallback: each non-empty string there, as often as it occurs, or [] when `models` is not an array. A timeout surfaces as 'Request timed out'. |
| ChatService.DataIdsDeduplicated | src/services/chatService.ts:37-45 | `data` ids gpt-4o, gpt-4o, gpt-4.1 give gpt-4o, gpt-4.1. |
| ChatService.FallbackKeepsDuplicates | src/services/chatService.ts:47-53 | The `models` fallback keeps duplicates. |
| ChatService.GetUsage | src/services/chatService.ts:199-242 | There is a result exactly when the request succeeded with a non-null body. The counters are the numeric `remaining` and `entitlement`. The used count is set exactly when both are set, and it equals entitlement minus remaining. |
| ChatServiceCs.TryGetProperty | src/Sample.Wasm/Services/ChatService.cs:52 | It throws exactly when the element is not an object; otherwise it gives the member, if any. |
| ChatServiceCs.GetProperty | src/Sample.Wasm/Services/ChatService.cs:128 | It returns exactly when the object has the member. |
| ChatServiceCs.GetString | src/Sample.Wasm/Services/ChatService.cs:59 | It gives null for JSON null and the text for a string; any other kind throws. |
| ChatServiceCs.Wrap32 | src/Sample.Wasm/Services/ChatService.cs:26 | The result is in the Int32 range and congruent to the input mod 2^32. In-range values are kept. |
| ChatServiceCs.GetInt32 | src/Sample.Wasm/Services/ChatService.cs:157 | It returns exactly for an integral number in the Int32 range, and then gives that number. |
| ChatServiceCs.UsageInfo.PremiumRequestsUsed | src/Sample.Wasm/Services/ChatService.cs:24-27 | It has a value exactly when both counters do. That value is in the Int32 range, and it equals total minus left when that difference fits. |
| ChatServiceCs.UsedCountWraps | src/Sample.Wasm/Services/ChatService.cs:24-27 | With total Int32.MinValue and left 1, the used count wraps to Int32.MaxValue. |
| ChatServiceCs.CollectIdsThrowsOnce | src/Sample.Wasm/Services/ChatService.cs:55-65 | Once the `foreach` has thrown, the later items are never read. |
| ChatServiceCs.CollectIdsSpec | src/Sample.Wasm/Services/ChatService.cs:55-65 | The loop returns exactly when every item is an object whose `id`, if present, is a string or null. It then collects the ids that are not null-or-whitespace, in item order. |
| ChatServiceCs.FallbackModelsSpec | src/Sample.Wasm/Services/ChatService.cs:75 | The fallback returns exactly when every element is a string or null. It then lists each string that is not null-or-whitespace, as often as it occurs, and nothing else. |
| ChatServiceCs.FallbackModelsAppend | src/Sample.Wasm/Services/ChatService.cs:75 | The fallback keeps array order: the list for a concatenation is the two lists one after the other. |
| ChatServiceCs.ModelsOfSpec | src/Sample.Wasm/Services/ChatService.cs:51-83 | No listed model is null-or-whitespace. Ids from `data` are deduplicated in first-occurrence order and exactly cover the collected ids. When `data` is missing or yields no id, the result is the `models` fallback, or [] without a `models` array. |
| ChatServiceCs.GetModelsAsync | src/Sample.Wasm/Services/ChatService.cs:37-84 | The `foreach` loop returns what `ModelsOf` says. |
| ChatServiceCs.WireRole | src/Sample.Wasm/Services/ChatService.cs:96 | User becomes "user" and System becomes "system"; every other role becomes "assistant". |
| ChatServiceCs.WireMessage | src/Sample.Wasm/Services/ChatService.cs:97 | The wire message carries the role name and the text, with "" for a null text. |
| ChatServiceCs.RequestBody | src/Sample.Wasm/Services/ChatService.cs:100-110 | The body carries the model, the messages, the temperature (0.2 when null) and `stream: false`. `max_tokens` is present exactly when a limit has a value, zero included. |
| ChatServiceCs.ExtractContentSpec | src/Sample.Wasm/Services/ChatService.cs:128-129 | The text is `choices[0].message.content`, or "" when it is null. An empty `choices` throws IndexOutOfRange, and a missing one throws KeyNotFound. |
| ChatServiceCs.GetResponseAsync | src/Sample.Wasm/Services/ChatService.cs:86-130 | A null-or-whitespace model throws ArgumentException before anything is sent. Otherwise the body holds one wire message per history entry, and the result is the extracted content or the transport's exception. |
| ChatServiceCs.GetUsageAsync | src/Sample.Wasm/Services/ChatService.cs:132-174 | Any failure gives a `UsageInfo` whose fields are all null, and so does a root without an object at `quota_snapshots.premium_interactions`. A counter that is set holds the JSON number found at its own member there. |
| ChatServiceCs.UsageSpec | src/Sample.Wasm/Services/ChatService.cs:151-173 | For any root with that object: when both members are readable, each counter is set exactly when its member is a JSON number, so a non-number member leaves its counter null. A number that is not an Int32 makes `GetInt32` throw, and then both counters are null. |
| ChatServiceCs.UsageExample | src/Sample.Wasm/Services/ChatService.cs:151-173 | Two Int32 counters are read as they are, and the number used is their difference wrapped to Int32. |
| ChatServiceCs.WhitespaceIdHandledDifferently | src/Sample.Wasm/Services/ChatService.cs:60 | The id " " is listed by the browser client and dropped by the .NET one. |
| ChatServiceCs.ZeroMaxTokensHandledDifferently | src/Sample.Wasm/Services/ChatService.cs:107-110 | A zero token limit is left out by the browser client and sent by the .NET one. |
| Persistence.ToDtos | src/services/storageService.ts:236-242 | There is one DTO per session, in order. |
| Persistence.FromDtos | src/services/storageService.ts:266-275 | There is one session per DTO, in order. |
| Persistence.DtoRoundTrip | src/services/storageService.ts:236-275 | A session with the client's own roles survives the trip to a DTO and back: id, title, history, time and prompt. |
| Persistence.StrProp | src/services/storageService.ts:286 | It is set exactly when the member is a string, and then it gives that string. |
| Persistence.DecodeAll | src/services/storageService.ts:286-298 | A decoded list has one element per item, and each element is that item's decoding. |
| Persistence.DecodeAllOfDecodable | src/services/storageService.ts:286-298 | When every item decodes, the list decodes to exactly those values. |
| Persistence.DtosJsonRoundTrip | src/services/storageService.ts:252-286 | What `JSON.stringify` wrote, `JSON.parse` reads back as the same DTO list. |
| Persistence.FallbackRoundTrip | src/services/storageService.ts:252-298 | With IndexedDB failing on both calls, the sessions saved are loaded back in the same order, with the same fields. |
| Persistence.FallbackSetting | src/services/storageService.ts:324-325 | A missing item is null, and a JSON item is its value. Non-empty text that is not JSON throws. |
| Persistence.SaveStep | src/services/storageService.ts:69-84 | A DTO is rejected with 'missing id' exactly when its id is empty; otherwise it is added under its id. |
| Persistence.SaveSteps | src/services/storageService.ts:69-91 | There is one step per DTO, in order. |
| Persistence.LoadedDto | src/services/storageService.ts:114-120 | A loaded DTO always has a time. A stored non-empty time is kept, with the whole DTO as stored. |
| Persistence.LoadedDtos | src/services/storageService.ts:114-120 | There is one DTO per stored record, in store order. |
| Persistence.PrimaryRoundTripSorts | src/services/storageService.ts:55-129 | Sessions with distinct non-empty ids are all saved, and a load returns each of them once, sorted by id. |
| Persistence.SavedStore | src/services/storageService.ts:62-91 | Saving sessions with distinct non-empty ids leaves exactly their records in the store, in key order. |
| Persistence.PrimaryTierReorders | src/services/storageService.ts:105-129 | Two sessions saved in the order b, a come back from IndexedDB as a, b. |
| Persistence.PrimaryRoundTripKeepsSortedList | src/services/storageService.ts:55-129 | A list already sorted by id comes back exactly as saved. |
| Persistence.SaveWithMissingIdCommitsPrefix | src/services/storageService.ts:62-91 | When the second of two sessions has an empty id, the clear and the first add commit. The store keeps only the first session, and a later load returns it alone. |
| Persistence.ValidatedSaveAllOrNothing | src/services/storageService.ts:62-91 | The validated save leaves either the old store untouched or every new record and nothing else. |
| Persistence.SavedEntries | src/services/storageService.ts:69-91 | Each session becomes an entry under its id. Distinct or ascending ids give distinct or ascending keys. |
| Persistence.EntryReadsBack | src/services/storageService.ts:69-120 | Each stored entry reads back as the session it came from. |
| Persistence.LocalStorage.SetItem | src/services/storageService.ts:253 | The key is given the value, and nothing else changes. |
| Persistence.LocalStorage.GetItem | src/services/storageService.ts:283 | It gives the stored value, or nothing for a missing key. |
| Persistence.ChatStorage.constructor | src/services/storageService.ts:4-8 | There is no handle yet and no open has been attempted. |
| Persistence.ChatStorage.Init | src/services/storageService.ts:10-53 | A held handle is returned without opening again. Otherwise there is one open attempt, which yields the database or rejects. |
| Persistence.ChatStorage.SaveSessions | src/services/storageService.ts:55-103 | The sessions store ends as `Replaced` says for the DTO steps. The settings are untouched, and a failed open changes nothing. |
| Persistence.ChatStorage.ReplaceAll | src/services/storageService.ts:58-102 | The transaction's store and result are those of `Replaced`. A rejected DTO commits the prefix, and a duplicate key rolls back. |
| Persistence.ChatStorage.LoadSessions | src/services/storageService.ts:105-129 | It gives every stored record mapped to a DTO, in key order, or rejects when the open fails. |
| Persistence.ChatStorage.SaveSetting | src/services/storageService.ts:131-142 | The settings map gets the key, and the sessions are untouched. |
| Persistence.ChatStorage.LoadSetting | src/services/storageService.ts:144-158 | It gives the stored value, or null for a missing key. |
| Persistence.ChatStorage.Clear | src/services/storageService.ts:160-177 | Only the sessions store is emptied. |
| Persistence.StorageService.constructor | src/services/storageService.ts:216-220 | The facade is built over the two stores. |
| Persistence.StorageService.InitializeStorage | src/services/storageService.ts:223-232 | It is true exactly when IndexedDB is open or opens. |
| Persistence.StorageService.SaveSessions | src/services/storageService.ts:235-256 | IndexedDB is replaced as `Replaced` says. If that throws, the whole DTO list is written as JSON under CHAT_SESSIONS; otherwise `localStorage` is untouched. The IndexedDB settings never change. |
| Persistence.StorageService.LoadSessions | src/services/storageService.ts:259-306 | A non-empty IndexedDB list wins. Otherwise the parsed CHAT_SESSIONS list is used. The result is [] when that key is missing or does not parse, and also when an element does not have the DTO shape (see "Left out"). |
| Persistence.StorageService.SaveSetting | src/services/storageService.ts:309-316 | The value goes to IndexedDB and `localStorage` is untouched. When IndexedDB fails, its JSON goes under its own key and the IndexedDB settings are unchanged. The sessions never change. |
| Persistence.StorageService.LoadSetting | src/services/storageService.ts:319-327 | It gives IndexedDB's value (null when the key is missing), or the parsed `localStorage` item. |
| Persistence.StorageService.ClearStorage | src/services/storageService.ts:335-343 | It is true exactly when the clear ran, and then the sessions store is empty; on false nothing changes. The settings are never touched. |
| IndexedDbJs.Either | src/Sample.Wasm/wwwroot/js/indexeddb.js:72-75 | It gives the capitalised property when it is truthy, and the lowercase one otherwise. |
| IndexedDbJs.KeyOf | src/Sample.Wasm/wwwroot/js/indexeddb.js:72-87 | A string or number id is its own key. Every other id is refused with `DataError`, arrays included (see "Left out"). |
| IndexedDbJs.LastUpdatedOf | src/Sample.Wasm/wwwroot/js/indexeddb.js:75 | The stored time is always truthy. |
| IndexedDbJs.SaveSteps | src/Sample.Wasm/wwwroot/js/indexeddb.js:69-91 | There is one step per session object, in order. |
| IndexedDbJs.SaveStepSpec | src/Sample.Wasm/wwwroot/js/indexeddb.js:70-84 | A null session throws a TypeError, and a falsy resolved id throws 'missing id'. Otherwise the record is added under its id, with the capitalised-or-lowercase fields. |
| IndexedDbJs.MissingTimeIsNow | src/Sample.Wasm/wwwroot/js/indexeddb.js:75 | A session without either time property is stamped with the save time. |
| IndexedDbJs.SystemMessageNotStored | src/Sample.Wasm/wwwroot/js/indexeddb.js:71-77 | A system message on the session never reaches the store. |
| IndexedDbJs.SameRecordFields | src/Sample.Wasm/wwwroot/js/indexeddb.js:71-77 | Members other than the four read fields do not affect what is stored. |
| IndexedDbJs.LoadedAll | src/Sample.Wasm/wwwroot/js/indexeddb.js:114-119 | There is one renamed session per stored record, in key order. |
| IndexedDbJs.TimeBeyondRangeIsEpoch | src/Sample.Wasm/wwwroot/js/indexeddb.js:118 | A stored number up to 8.64e15 is read as that many milliseconds. One past it is an Invalid Date, which reads as the epoch. |
| IndexedDbJs.DotNetSessionRoundTrip | src/Sample.Wasm/wwwroot/js/indexeddb.js:55-128 | A session sent by .NET with capitalised names is stored under its id and loads back with the same id, title, history and time. |
| IndexedDbJs.ChatStorage.constructor | src/Sample.Wasm/wwwroot/js/indexeddb.js:3-8 | There is no handle yet and no open has been attempted. |
| IndexedDbJs.ChatStorage.Init | src/Sample.Wasm/wwwroot/js/indexeddb.js:10-53 | A held handle is returned without opening again. Otherwise there is one open attempt. |
| IndexedDbJs.ChatStorage.SaveSessions | src/Sample.Wasm/wwwroot/js/indexeddb.js:55-103 | The sessions store ends as `Replaced` says for the session steps. The settings are untouched, and a failed open changes nothing. |
| IndexedDbJs.ChatStorage.ReplaceAll | src/Sample.Wasm/wwwroot/js/indexeddb.js:58-102 | The transaction's store and result are those of `Replaced`. |
| IndexedDbJs.ChatStorage.LoadSessions | src/Sample.Wasm/wwwroot/js/indexeddb.js:105-128 | It gives every record renamed to Id/Title/History/LastUpdated, in key order. |
| IndexedDbJs.ChatStorage.SaveSetting | src/Sample.Wasm/wwwroot/js/indexeddb.js:130-142 | The settings map gets the key, and the sessions are untouched. |
| IndexedDbJs.ChatStorage.LoadSetting | src/Sample.Wasm/wwwroot/js/indexeddb.js:144-158 | It gives the stored value, or null for a missing key. |
| IndexedDbJs.Window.constructor | src/Sample.Wasm/wwwroot/js/indexeddb.js:162 | The global store object is installed. |
| IndexedDbJs.Window.InitializeIndexedDB | src/Sample.Wasm/wwwroot/js/indexeddb.js:165-174 | It is true exactly when the database is open or opens. |
| IndexedDbJs.Window.SaveSessionsToIndexedDB | src/Sample.Wasm/wwwroot/js/indexeddb.js:177-187 | It resolves as the store's save does, or rethrows its error. |
| IndexedDbJs.Window.LoadSessionsFromIndexedDB | src/Sample.Wasm/wwwroot/js/indexeddb.js:189-199 | It rejects exactly when the open fails; otherwise it gives the loaded list. |
| IndexedDbJs.Window.SaveSettingToIndexedDB | src/Sample.Wasm/wwwroot/js/indexeddb.js:201-209 | It is true and the key is stored, or false and the settings are unchanged. |
| IndexedDbJs.Window.LoadSettingFromIndexedDB | src/Sample.Wasm/wwwroot/js/indexeddb.js:211-218 | It gives the value, or null for a missing key and on error. |
| IndexedDbJs.Window.ClearIndexedDB | src/Sample.Wasm/wwwroot/js/indexeddb.js:310-330 | Only the sessions store is emptied; it is true exactly when the database was initialised or opens. |
| IndexedDb.StrBelowAsymmetric | src/services/storageService.ts:38 | String key order is asymmetric. |
| IndexedDb.StrBelowTotal | src/services/storageService.ts:38 | String key order is total. |
| IndexedDb.StrBelowTransitive | src/services/storageService.ts:38 | String key order is transitive. |
| IndexedDb.KeyOrder | src/services/storageService.ts:38 | Key order (numbers before strings) is a strict total order. |
| IndexedDb.KeysOf | src/services/storageService.ts:38 | There is one key per entry, in order. |
| IndexedDb.Records | src/services/storageService.ts:110 | `getAll` gives the records in store (key) order. |
| IndexedDb.AsMap | src/services/storageService.ts:38 | The map's keys are exactly the store's keys. |
| IndexedDb.Insert | src/services/storageService.ts:87 | An add grows the store by the new entry and keeps every old one. |
| IndexedDb.InsertAscending | src/services/storageService.ts:87 | Adding a fresh key keeps the store in key order. |
| IndexedDb.AscendingKeysDistinct | src/services/storageService.ts:38 | In a store in key order, each key names one record. |
| IndexedDb.AscendingUnique | src/services/storageService.ts:110 | Two stores in key order holding the same entries are equal, so the order `getAll` returns is determined by the contents. |
| IndexedDb.Puts | src/services/storageService.ts:69-91 | There is one added entry per step, in order. |
| IndexedDb.FillAscending | src/services/storageService.ts:62-91 | Every state the transaction passes through is in key order. |
| IndexedDb.FillAllPut | src/services/storageService.ts:62-91 | With distinct keys and no rejected input, every entry is stored and nothing else. |
| IndexedDb.FillOfPuts | src/services/storageService.ts:62-91 | Without rejected inputs, the transaction either stays open holding exactly the entries or aborts on a duplicate key. |
| IndexedDb.FillRejectedAt | src/services/storageService.ts:81-84 | A first rejected input ends the transaction, holding the entries before it, with that error. |
| IndexedDb.FillAfterEnd | src/services/storageService.ts:62-91 | Once the transaction has ended, later inputs change nothing. |
| IndexedDb.Database.constructor | src/services/storageService.ts:31-51 | A fresh database has both stores empty. |
| IndexedDb.Database.Clear | src/services/storageService.ts:63 | The sessions store is emptied. |
| IndexedDb.Database.Add | src/services/storageService.ts:87-89 | The add succeeds exactly for a fresh key and then inserts in key order; otherwise nothing changes. |
| IndexedDb.Database.Rollback | src/services/storageService.ts:98-101 | An aborted transaction restores the snapshot. |
| IndexedDb.Database.GetAll | src/services/storageService.ts:110 | It gives the records in key order. |
| IndexedDb.Database.Put | src/services/storageService.ts:138 | The settings map gets the key. |
| IndexedDb.Database.Get | src/services/storageService.ts:149 | It gives the value, or nothing for a missing key. |
| ChatTypes.DateRoundTrip | src/services/storageService.ts:240-273 | A time written by `IsoText` is parsed back by `DateOf` to the same instant. The text is the decimal millisecond count that stands in for the ISO string. |
| ChatTypes.RoleRoundTrip | src/services/storageService.ts:239-270 | The client's roles survive being written as names and cast back. |
| ChatTypes.NewCsSession | src/Sample.Wasm/Models/Session.cs:5-12 | A new .NET session has an empty title and history and the default prompt 'You are a helpful assistant.'. |
| JsonValue.Or | src/Sample.Wasm/wwwroot/js/indexeddb.js:72-75 | `a \|\| b` gives `a` when it is truthy, and `b` otherwise. |
| JsonValue.NumberOf | src/services/chatService.ts:222-228 | It is a number exactly when the value is a JSON number. |
| Text.TrimStartSpec | src/services/chatService.ts:142 | What is kept is a suffix that starts with a non-whitespace character, and every character dropped is whitespace. |
| Text.TrimEndSpec | src/services/chatService.ts:142 | What is kept is a prefix that ends with a non-whitespace character, and every character dropped is whitespace. |
| Text.TrimJsSpec | src/services/chatService.ts:142 | The trimmed text neither starts nor ends with whitespace. |
| Text.TrimEmptyIffBlank | src/stores/chatStore.ts:306-307 | `trim()` is empty exactly when every character is whitespace. |
| Text.TrimIsInfix | src/services/chatService.ts:142 | Trimming keeps a contiguous middle part of the text. |
| Text.ContainsInfix | src/services/chatService.ts:191 | A text contains every part it was built from. |
| Text.Split | src/services/chatService.ts:138 | A split gives at least one part. |
| Text.SplitJoin | src/services/chatService.ts:138 | The parts contain no separator, and joining them gives back the text. |
| Text.JoinSplit | src/services/chatService.ts:138 | Separator-free parts, joined and split again, come back unchanged. |
| Text.ConcatAppend | src/stores/chatStore.ts:329-342 | The concatenation of joined lists is the joined concatenations. |
| Text.FirstIndex | src/services/chatService.ts:43 | The index holds the value and no earlier index does. |
| Text.DedupSpec | src/services/chatService.ts:43 | The result has no duplicates, holds exactly the input's values, and keeps their first-occurrence order. |
| Text.DedupOfDistinct | src/services/chatService.ts:43 | A list without duplicates is its own deduplication. |
| Text.Decimal | src/services/storageService.ts:240 | The text is a non-empty string of digits. |
| Text.DecimalRoundTrip | src/services/storageService.ts:240-273 | Decimal text parses back to its number. |

## Left out

- Network plumbing is left out: `fetch`, `HttpClient`, `AbortController`, `combineSignals`, timeouts, `TextDecoder` and `reader.read`. Each request's outcome is a parameter: a `Reply`, or a `Transport` holding the chunk list and how the read loop stops.
- Concurrency is left out. Saves are instantaneous, and an un-awaited `saveSessions` is taken to finish before the next action. `loadUsage` runs to completion inside `sendMessage`, with the service's answer as a parameter.
- `generateId`, `new Date()` and the result of `indexedDB.open` are parameters (`freshId`, `now`, `openOk`).
- `JSON.stringify`/`JSON.parse` of values kept in `localStorage` are modelled by provenance. A `StoredText` is either plain text or serialized JSON, and plain text does not parse as JSON.
- Store.ChatStore.LoadModels: LAST_MODEL is stored as plain text and read only as plain text.
- Store.StoredSystemMessage: the same holds for SYSTEM_MESSAGE.
- Store.ReadModelSettings: a stored value that is JSON but not a number falls back to the defaults. JavaScript arithmetic on non-number values is not modelled.
- Store.ChatStore.InitializeApp: these parts of `initializeApp` are not modelled:
  - the storage start-up;
  - the theme and DOM attribute writes;
  - the `console` logging.

  The model list, the loaded sessions and the usage are its inputs.
- The toggles `toggleMobileHistory`, `closeMobileHistory`, `toggleSettingsOverlay`, `closeSettingsOverlay` and `toggleTheme` (src/stores/chatStore.ts:648-684) are left out. They flip presentation flags or write the theme to the DOM and storage, and nothing in the model reads them.
- Store.TitleFromSpec: lengths count Dafny characters. JavaScript's `substring` counts UTF-16 code units.
- Store.ChatStore.SaveEditMessage: a mark at or past the end of the list makes the source grow the array. The new slots are empty, and the last one holds a role-less message with the edit text. A message list here has no empty slots and no role-less message, so the model keeps the list as it was. The mark is still cleared and the session is still stamped and saved, as in the source. A negative mark sets a property outside the array's elements, and there the model is exact.
- ChatServiceCs.GetInt32: numbers are exact reals and keep no text. `JsonElement.GetInt32` throws `FormatException` on number text such as `5.0` or `1e3`, but the model reads those as 5 and 1000.
- Persistence.StorageService.LoadSessions: the CHAT_SESSIONS fallback maps the parsed list with no shape check. An element with a missing or wrongly typed field, such as `systemMessage: null` or no `title`, still gives a session with that field as it is. The model's sessions have typed fields, so such a list gives []. The client itself only writes well-formed DTOs there.
- Persistence.DecodeDto: a stored element decodes only when `id`, `title` and `lastUpdated` are strings, `history` is an array of `{role, text}` string pairs, and `systemMessage` is a string or absent. The source takes any shape as it is.
- Persistence.FromDto: a `lastUpdated` text that names no instant reads as the epoch. The source gets an Invalid Date, and its next save then throws a `RangeError` from `toISOString` at storageService.ts:240, outside the `try`.
- IndexedDbJs.KeyOf: an array of valid keys is a valid IndexedDB key, so `add` stores a session under it. The model refuses every array with `DataError`, and its key order has no array keys. .NET sends `Id` as a Guid string, so this never happens with the client's own sessions.
- ChatServiceCs.WireRole: `OrdinalIgnoreCase` folds only ASCII letters here. .NET upper-cases every character with the invariant culture, so a role name such as "uſer" (with a long s) matches "user" there and is sent as "user", where the model sends "assistant".
- IndexedDb.StrBelowTotal: string keys are ordered by Unicode scalar value. IndexedDB compares UTF-16 code units, which differs for characters outside the Basic Multilingual Plane.
- ChatService.GetResponseStreaming: the 3 ms delay after each yield and the `releaseLock` in `finally` are not modelled.
- IndexedDbJs.DateOfJson: text or a value that names no instant reads as the epoch, where `new Date` gives an Invalid Date. A negative number is a valid date before the epoch in the source. Times here are natural millisecond counts, so it also reads as the epoch. A number above 8.64e15 ms, the largest time value a `Date` holds, is an Invalid Date and reads as the epoch too. Stored text is read by `DateOf`, whose decimal count has no such bound.
- Floating-point numbers are reals. Temperatures, token limits and JSON numbers are exact, with no rounding.
- `ChatStorage.test`, `StorageService.testStorage` and `window.testIndexedDB` are left out. They are self-tests that call the modelled operations with a fixed session.
- The scroll, clipboard and textarea helpers of indexeddb.js, the React components and the temperature dial are not part of this model.

## Findings

| source | as written | input that shows it | evidently intended | confidence | as-written member | corrected member |
|---|---|---|---|---|---|---|
| src/services/storageService.ts:62-91 | The `clear` and each `add` are issued inside the read-write transaction before the id check of the next DTO. When a DTO with an empty id throws, the transaction is not aborted, and it commits the clear and the earlier adds. The facade then also writes the full list under CHAT_SESSIONS, but the next load prefers the non-empty IndexedDB list. | Two sessions whose second has id "": the store keeps only the first, and the next load returns the first alone. | Saving replaces the stored sessions atomically: all DTOs are stored, or the old store stays as it was. | medium, not executed | Persistence.SaveWithMissingIdCommitsPrefix | Persistence.ValidatedSaveAllOrNothing |

`Persistence.ChatStorage.SaveSessions` and `IndexedDbJs.ChatStorage.SaveSessions`
keep the behaviour as written, so that the facade's fallback is modelled as
the clients run it. `Persistence.ValidatedSave` checks every id before it
touches the store, and `Persistence.ValidatedSaveAllOrNothing` proves that it is
all or nothing.
