# Chat client send pipeline, in Dafny

This project models the logic of a small single-page chat client. The client
posts a message, and optionally a file, to a backend. It shows the exchange as
a transcript, keeps a list of recent queries, and has a client-side admin
switch. Three source files hold that logic:

- `components/ChatInterface.tsx`. The transcript, the recent-query history and
  the model / API version / port preferences kept in `localStorage`. It also
  holds `handleSendMessage`, which does these steps in order: turns away empty
  sends, appends the user's message, records the query, builds the form and the
  URL, picks the reply field, strips `(Chunk…)` markers and appends exactly one
  assistant message.
- `components/ChatInput.tsx`. The composer: text, attached file, mode
  (`query` / `input` / `data`) and operation (`get` / `delete` /
  `similarity`), with the submit gate and the effect that takes a query picked
  from the history.
- `app/page.tsx`. The admin switch (`isAdmin`, `showLogin`) with its fixed
  credentials, logout and restore at startup.

Module layout:

| module | file | models |
|---|---|---|
| `Text` | text.dfy | `trim` and its whitespace set, ASCII digits, `indexOf`, first-occurrence `replace` |
| `Json` | json.dfy | `JSON.stringify` of a string array and the `JSON.parse` that reads it back |
| `History` | history.dfy | the capped, most-recent-first, repeat-free query list |
| `Endpoint` | endpoint.dfy | port sanitising, the `_v` path mapping, the target URL |
| `Request` | request.dfy | modes, operations, the empty-send gate, the multipart form |
| `Reply` | reply.dfy | reply field choice, fallback, `(Chunk…)` stripping, error text |
| `Storage` | storage.dfy | `localStorage` as one `Store` object shared by the page and the chat |
| `ChatInput` | chat_input.dfy | the composer class `Composer` |
| `ChatInterface` | chat_interface.dfy | the chat class `Chat` and its send pipeline |
| `Page` | page.dfy | the page class `Home` |

The network and `window.location` are inputs; time is left out (see "## Left out"). A send's request ends as an
`Outcome`: either `Failed`, or `Received(message, answer)` holding the two JSON
fields the client may read. The page location is a `Location(protocol,
hostname, origin)`. State the source changes in place lives in classes (`Chat`,
`Composer`, `Home`, `Store`). Those methods state their whole new state in
terms of pure functions, and the lemmas are proved about those functions.

Behaviours modelled as the code has them:

- `trim` only strips the ends. `"Result (Chunk 1/2) more"` is shown as
  `"Result  more"`, with two spaces (`Reply.CleanExample`).
- The global `replace` is single-pass. `"((Chunk)Chunk)"` becomes `"(Chunk)"`,
  which would itself be stripped again (`Reply.StripIsSinglePass`).
- A reply made only of a chunk gives an empty assistant message
  (`Reply.ChunkOnlyReplyIsEmpty`).
- A truthy reply field that is not a string (a number, `true`, an object) has
  no `.replace`. The handler throws, and the catch branch posts the error text
  (`Reply.ReplyField`).
- A stored port is loaded without sanitising. Only typed ports go through the
  sanitiser.
- A file-only send in `query` mode records the empty string as a query. The
  composer ignores that entry when it is picked (`Chat.PickFromHistory`).

## Model

| member | source | states |
|---|---|---|
| `Text.Trim` | components/ChatInterface.tsx:74 | the trimmed text neither starts nor ends with whitespace |
| `Text.TrimStart` | components/ChatInterface.tsx:74 | the result is the suffix of the input after its leading whitespace, and everything dropped is whitespace |
| `Text.TrimEnd` | components/ChatInterface.tsx:74 | the result is the prefix of the input before its trailing whitespace, and everything dropped is whitespace |
| `Text.BlankIffAllSpace` | components/ChatInterface.tsx:72 | `!text.trim()` holds exactly when every character is whitespace |
| `Text.TrimOfUnpadded` | components/ChatInterface.tsx:139 | text with non-space ends is left unchanged by `trim` |
| `Text.TrimIdempotent` | components/ChatInterface.tsx:74 | trimming twice equals trimming once |
| `Text.Digits` | components/ChatInterface.tsx:180 | `replace(/\D/g, '')` keeps only ASCII digits and never grows |
| `Text.DigitsOfDigits` | components/ChatInterface.tsx:180 | a digit string is its own digit subsequence |
| `Text.DigitsAppend` | components/ChatInterface.tsx:180 | the digits of a concatenation are the concatenated digits |
| `Text.DigitsEmptyIff` | components/ChatInterface.tsx:180 | no digits survive exactly when the input has no ASCII digit |
| `Text.IndexOf` | components/ChatInterface.tsx:110 | the result is an occurrence of the pattern and no earlier occurrence exists; None means none exists |
| `Text.RemoveFirst` | components/ChatInterface.tsx:110 | when the pattern occurs, the result is the text with its first occurrence cut out (no earlier occurrence exists, and the result is shorter by the pattern's length); otherwise the text is unchanged |
| `Json.HexDigit` | components/ChatInterface.tsx:93 | the lower-case hex digit written for a value reads back as that value |
| `Json.HexValue` | components/ChatInterface.tsx:52 | a hex digit reads as a value below 16 |
| `Json.EscapeChar` | components/ChatInterface.tsx:93 | an escaped character never starts with a raw quote; it is either an escape sequence or the printable character itself |
| `Json.Stringify` | components/ChatInterface.tsx:93 | the stored history text has at least two characters and opens with `[` |
| `Json.ReadChar` | components/ChatInterface.tsx:52 | a decoded character consumes at least one and at most all of the input |
| `Json.ReadChars` | components/ChatInterface.tsx:52 | reading a string literal always consumes input |
| `Json.ReadEscapedChar` | components/ChatInterface.tsx:52-93 | each character `JSON.stringify` escapes decodes back to itself, with the same length |
| `Json.ReadEscaped` | components/ChatInterface.tsx:52-93 | an escaped string followed by a closing quote decodes back to the string and leaves the rest untouched |
| `Json.ReadQuoted` | components/ChatInterface.tsx:52-93 | a quoted string literal decodes back to its string |
| `Json.ReadQuotedItems` | components/ChatInterface.tsx:52-93 | a comma-separated list of literals closed by `]` decodes back to the list |
| `Json.ReadItems` | components/ChatInterface.tsx:52 | a list read as items always holds at least one item |
| `Json.Parse` | components/ChatInterface.tsx:52 | only text of at least two characters that opens with `[` reads as a history |
| `Json.ParseEmpty` | components/ChatInterface.tsx:52 | the empty history is read from exactly the text `[]` |
| `Json.ReadCharsRest` | components/ChatInterface.tsx:52 | the text left after a string literal is a suffix of the input |
| `Json.ReadItemsClosed` | components/ChatInterface.tsx:52 | a list read as items ends with `]` |
| `Json.ParseClosed` | components/ChatInterface.tsx:52 | text that reads as a history ends with `]` |
| `Json.ParseStringify` | components/ChatInterface.tsx:50-53 | the history stored by a send is read back unchanged by the startup loader |
| `History.Without` | components/ChatInterface.tsx:91 | the filter removes every copy of the query, keeps all other entries and leaves a list without it unchanged |
| `History.Record` | components/ChatInterface.tsx:91 | the new query is at index 0, the list has 1 to 10 entries, and every entry is the new query or an old one |
| `History.WithoutKeepsDistinct` | components/ChatInterface.tsx:91 | filtering keeps a repeat-free list repeat-free |
| `History.WithoutLength` | components/ChatInterface.tsx:91 | in a repeat-free list, filtering removes exactly one entry if the query is there and none otherwise |
| `History.RecordKeepsDistinct` | components/ChatInterface.tsx:91 | a repeat-free history stays repeat-free |
| `History.RecordBelowCapacity` | components/ChatInterface.tsx:91 | below ten entries nothing is dropped: the entries are the new query plus all old ones |
| `History.RecordExisting` | components/ChatInterface.tsx:91 | re-running a query already in the history keeps the same length and the same entries |
| `History.WithoutAppend` | components/ChatInterface.tsx:91 | the filter works entry by entry: filtering a concatenation is concatenating the filtered parts, so the order of the kept entries is the old order |
| `History.RecordAtCapacity` | components/ChatInterface.tsx:91 | with ten entries and a new query, the query goes in front, the oldest entry is dropped and the other nine keep their order |
| `History.RecordMovesToFront` | components/ChatInterface.tsx:91 | re-running the entry at index k moves it to the front; the entries before and after it keep their order |
| `History.RecordIdempotent` | components/ChatInterface.tsx:91 | sending the same query twice leaves the history as after the first send |
| `Endpoint.SanitizePort` | components/ChatInterface.tsx:180 | the port is digits only, is a prefix of the input's digits, and has length min(5, number of digits) |
| `Endpoint.SanitizeIdempotent` | components/ChatInterface.tsx:178-183 | sanitising a sanitised port changes nothing |
| `Endpoint.SanitizedPortBlank` | components/ChatInterface.tsx:180 | a sanitised port is blank exactly when the input had no digit |
| `Endpoint.SanitizeExample` | components/ChatInterface.tsx:180 | `"12a3456xyz"` becomes `"12345"` |
| `Endpoint.SanitizedPortUsed` | components/ChatInterface.tsx:114 | a sanitised port is used for the URL exactly when it is non-empty |
| `Endpoint.ApiPath` | components/ChatInterface.tsx:110 | a version without `_v` is used unchanged as the path |
| `Endpoint.ApiPathOfVersion` | components/ChatInterface.tsx:109-110 | every `chat_v<N>` maps to `chat<N>` |
| `Endpoint.ApiUrl` | components/ChatInterface.tsx:113-120 | with a non-blank port the URL is protocol, `//`, host, `:port`, `/path`; otherwise origin and `/path` |
| `ChatInterface.AllowedVersionPath` | components/ChatInterface.tsx:109-110 | each allowed version `chat_v<N>` is seven characters and maps to the path `chat<N>` |
| `ChatInterface.TargetUrlOfAllowed` | components/ChatInterface.tsx:110-120 | for an allowed version the request goes to `ApiUrl` with the configured port and the path `chat<N>` for `chat_v<N>` |
| `Endpoint.DefaultVersionPath` | components/ChatInterface.tsx:110 | the default version `chat_v2` maps to the path `chat2` |
| `Endpoint.ApiUrlExampleNoPort` | components/ChatInterface.tsx:110-120 | `chat_v2` without a port targets `origin/chat2` |
| `Endpoint.ApiUrlExampleWithPort` | components/ChatInterface.tsx:110-120 | `chat_v2` with port 9090 targets `protocol//host:9090/chat2` |
| `Request.RejectedIff` | components/ChatInterface.tsx:72 | a send is turned away exactly when the text is all whitespace and no file is attached |
| `Request.Form` | components/ChatInterface.tsx:97-106 | the form has between three and five entries |
| `Request.RequiredPrefix` | components/ChatInterface.tsx:97-101 | past the three required entries, looking a name up in the form is looking it up in the optional part |
| `Request.FormNamesDistinct` | components/ChatInterface.tsx:97-106 | no two form entries share a name, and the only file entry is the one named `file` |
| `Request.FormContents` | components/ChatInterface.tsx:97-106 | the form always has `message`, `select` = mode and `model`; it has `operation` iff the mode is `data` and one is given; it has `file` iff a file is present |
| `Request.FormRequired` | components/ChatInterface.tsx:97-100 | `message`, `select` (the mode's name) and `model` are always the first three entries, followed only by the optional ones |
| `Request.OptionalFields` | components/ChatInterface.tsx:101-106 | the optional part has `operation` iff the mode is `data` and one is given, and `file` iff a file is present, holding that file |
| `Reply.ChunkEndsAtClose` | components/ChatInterface.tsx:139 | a match at the head starts with `(Chunk` and ends at the first `)` after it |
| `Reply.ChunkUpToClose` | components/ChatInterface.tsx:139 | `(Chunk` followed, somewhere, by a `)` is a match up to that first `)` |
| `Reply.ChunkAt` | components/ChatInterface.tsx:139 | a match of `\(Chunk[^)]*\)` at the head is found exactly when one exists, and it ends at the first `)` |
| `Reply.StripChunks` | components/ChatInterface.tsx:139 | stripping never lengthens the text |
| `Reply.NoChunkWithoutOpen` | components/ChatInterface.tsx:139 | no match starts at a character other than `(` |
| `Reply.NoChunkAtDoubleParen` | components/ChatInterface.tsx:139 | no match starts at a `(` followed by another `(` |
| `Reply.StripPlainStep` | components/ChatInterface.tsx:139 | a first character other than `(` is kept and the scan moves on by one |
| `Reply.StripUnmatchedOpen` | components/ChatInterface.tsx:139 | a `(` that starts no match is kept and the scan goes on after it |
| `Reply.OpenBeforeOpen` | components/ChatInterface.tsx:139 | a `(` directly before another `(` is kept and the scan goes on at the second |
| `Reply.StripChunkAlone` | components/ChatInterface.tsx:139 | a text that is exactly one match strips to the empty string |
| `Reply.StripPlainPrefix` | components/ChatInterface.tsx:139 | text before the first `(` passes through untouched |
| `Reply.StripChunkPrefix` | components/ChatInterface.tsx:139 | a match at the head is removed whole and the scan resumes after it |
| `Reply.StripWithoutChunk` | components/ChatInterface.tsx:139 | a text without `(Chunk` is unchanged by stripping |
| `Reply.StripWithoutClose` | components/ChatInterface.tsx:139 | a text without `)` is unchanged: an unclosed `(Chunk` stays |
| `Reply.StripBetween` | components/ChatInterface.tsx:139 | a chunk between two texts without `(` is cut out and the texts are joined as they are |
| `Reply.Clean` | components/ChatInterface.tsx:139 | the cleaned text is no longer than the input and has no whitespace at either end |
| `Reply.CleanOfPlain` | components/ChatInterface.tsx:139 | a text without `(` and without outer whitespace is shown unchanged |
| `Reply.CleanFallback` | components/ChatInterface.tsx:133-139 | the fallback text survives cleaning unchanged |
| `Reply.CleanWithoutChunk` | components/ChatInterface.tsx:139 | a reply without `(Chunk` is only trimmed |
| `Reply.CleanExample` | components/ChatInterface.tsx:139 | `"Result (Chunk 1/2) more"` is shown as `"Result  more"`, with two spaces |
| `Reply.ChunkOfInner` | components/ChatInterface.tsx:139 | `(Chunk`, any text without parentheses, then `)` is a match of the pattern |
| `Reply.StripAfterOpen` | components/ChatInterface.tsx:139 | a `(` right before a match is kept, the match goes, and the text after it without `(` stays |
| `Reply.StripIsSinglePass` | components/ChatInterface.tsx:139 | for any two matches `m` and `c` (with no `(` after the head of `c`), `"("` + `m` + the tail of `c` strips to `c`, which is itself a match and would strip to the empty string on a second pass; so `"((Chunk)Chunk)"` gives `"(Chunk)"` |
| `Reply.ChunkOnlyReplyIsEmpty` | components/ChatInterface.tsx:131-139 | for every mode, a reply field that is any single match of the pattern gives an empty assistant message, whatever the other field holds |
| `Reply.FallbackUnpadded` | components/ChatInterface.tsx:133-135 | the fallback text has no whitespace at either end |
| `Reply.ReplyText` | components/ChatInterface.tsx:131-158 | there is no reply text (the handler throws) exactly when the request failed or the field read for the mode is truthy but not a string; a reply text has no whitespace at either end |
| `Reply.AssistantTextUnpadded` | components/ChatInterface.tsx:131-158 | the assistant's text is the error text, empty, or has no whitespace at either end |
| `Reply.FailureReply` | components/ChatInterface.tsx:150-158 | a failed request is answered with the fixed error text |
| `Reply.ReplyField` | components/ChatInterface.tsx:131-139 | `input` mode reads `message` and other modes read `answer`; a falsy field gives `No response received`, a truthy non-string gives the error text, a non-empty string gives its cleaned text |
| `Reply.ReplyIgnoresOtherField` | components/ChatInterface.tsx:132-136 | the field not read for the mode has no effect on the reply |
| `ChatInput.EffectiveMode` | components/ChatInput.tsx:40 | non-admins always send in `query` mode; admins send in the selected mode |
| `ChatInput.Submission` | components/ChatInput.tsx:39-42 | an event is emitted iff the trimmed text is non-empty or a file is attached; it carries the untrimmed text, the file and the effective mode, with an operation exactly when that mode is `data` |
| `ChatInput.NonAdminSendsQueries` | components/ChatInput.tsx:40-41 | a non-admin's send is a `query` send without an operation |
| `ChatInput.OperationReachesForm` | components/ChatInput.tsx:41 | the posted form has `operation` exactly when an admin sends in `data` mode |
| `ChatInput.Composer.constructor` | components/ChatInput.tsx:13-16 | the composer starts with empty text, no file, mode `input` and operation `get` |
| `ChatInput.Composer.Submit` | components/ChatInput.tsx:37-49 | emits the submission; after an emitted submit the text is empty and the file gone; mode and operation stay |
| `ChatInput.Composer.KeyDown` | components/ChatInput.tsx:171-176 | Enter without Shift submits; any other key emits nothing and changes nothing |
| `ChatInput.Composer.Edit` | components/ChatInput.tsx:166 | typing replaces the text |
| `ChatInput.Composer.SelectFile` | components/ChatInput.tsx:51-56 | the first picked file becomes the attachment; an empty pick changes nothing |
| `ChatInput.Composer.RemoveFile` | components/ChatInput.tsx:58-63 | removing the file clears it and leaves the text |
| `ChatInput.Composer.SelectMode` | components/ChatInput.tsx:72-94 | the mode buttons set the mode |
| `ChatInput.Composer.SelectOperation` | components/ChatInput.tsx:108-130 | the operation buttons set the operation |
| `ChatInput.Composer.ApplySelectedQuery` | components/ChatInput.tsx:20-27 | a non-empty picked query replaces the text, forces `query` mode and is reported consumed; an empty one changes nothing |
| `ChatInterface.Saved` | components/ChatInterface.tsx:50-66 | a stored value counts as present only when it exists and is non-empty |
| `ChatInterface.Adopt` | components/ChatInterface.tsx:55-63 | a stored choice is adopted iff it is in the allowed list; otherwise the current value stays, so an allowed value stays allowed |
| `ChatInterface.LoadedChoicesAllowed` | components/ChatInterface.tsx:26-63 | after loading, the model and API version are in their allowed lists, and a stored value outside them leaves the defaults |
| `ChatInterface.UserMessage` | components/ChatInterface.tsx:74-85 | the user's message has sender `user` and text and display text both equal to the trimmed input, and carries the file and its name |
| `ChatInterface.AssistantMessage` | components/ChatInterface.tsx:141-157 | the assistant's message has sender `assistant`, no file, no file name, no display text, and the reply or error text |
| `ChatInterface.Chat.constructor` | components/ChatInterface.tsx:23-28 | the chat starts empty with model `gemini-2.5-flash-preview-05-20`, version `chat_v2` and no port |
| `ChatInterface.Chat.LoadPreferences` | components/ChatInterface.tsx:48-69 | an unreadable history stops the loader; otherwise the history, allowed model and version, and any stored port are adopted |
| `ChatInterface.Chat.BeginSend` | components/ChatInterface.tsx:71-125 | an empty send changes nothing; an accepted one appends the user's message, records the query in `query` mode only and stores it as JSON that reads back, keeps the history repeat-free and capped, and posts the form to the configured URL |
| `ChatInterface.Chat.FinishSend` | components/ChatInterface.tsx:127-160 | exactly one assistant message is appended, reply or error |
| `ChatInterface.Chat.SendMessage` | components/ChatInterface.tsx:71-161 | an accepted send grows the transcript by exactly the user's and then the assistant's message; a rejected one changes nothing |
| `ChatInterface.Chat.SelectQuery` | components/ChatInterface.tsx:163-166 | picking a history entry hands it to the composer |
| `ChatInterface.Chat.QuerySelected` | components/ChatInterface.tsx:240 | a consumed pick is cleared |
| `ChatInterface.Chat.ChangeModel` | components/ChatInterface.tsx:168-171 | the model is set and stored |
| `ChatInterface.Chat.ChangeApiVersion` | components/ChatInterface.tsx:173-176 | the version is set and stored |
| `ChatInterface.Chat.ChangePort` | components/ChatInterface.tsx:178-183 | the sanitised port is set and is what is stored |
| `ChatInterface.Chat.PickFromHistory` | components/ChatInterface.tsx:236-241 | a picked non-empty entry lands in the composer in `query` mode, and the pick is cleared |
| `ChatInterface.Chat.SubmitFrom` | components/ChatInterface.tsx:236-238 | a submit is accepted exactly when the composer's text is not blank or a file is attached; a rejected one changes no transcript, history, store or composer field; an accepted one clears the composer's text and file, appends the user's and then the assistant's message, records the trimmed text in the history and the store in `query` mode only, and posts the form to the configured URL; mode and operation stay; a non-admin's accepted send always lands in the history, and the history stays repeat-free and capped |
| `Storage.Store.constructor` | components/ChatInterface.tsx:50 | the store starts with the given items |
| `Storage.Store.GetItem` | components/ChatInterface.tsx:50-65 | a key reads as its stored value, and as None exactly when it is absent |
| `Storage.Store.SetItem` | components/ChatInterface.tsx:93 | the key maps to the new value and every other key is unchanged |
| `Storage.Store.RemoveItem` | app/page.tsx:32 | the key is gone and every other key is unchanged |
| `Page.Home.constructor` | app/page.tsx:8-9 | the page starts non-admin with the login dialog closed |
| `Page.Home.RestoreSession` | app/page.tsx:11-17 | at startup admin mode is switched on iff the stored `isAdmin` is exactly `"true"` |
| `Page.Home.OpenLogin` | app/page.tsx:54 | the login button opens the dialog |
| `Page.Home.CloseLogin` | app/page.tsx:66 | closing the dialog hides it |
| `Page.Home.Login` | app/page.tsx:19-28 | `admin`/`admin` sets admin mode, stores `isAdmin = "true"`, closes the dialog and returns true; other credentials return false and change nothing |
| `Page.Home.Logout` | app/page.tsx:30-33 | logout clears admin mode and removes the stored flag |
| `Page.Reload` | app/page.tsx:8-17 | a fresh page is admin exactly when the store holds `isAdmin = "true"` |

## Left out

- Rendering: components/MessageList.tsx, components/ChatSidebar.tsx and app/layout.tsx are view markup. The only choice they make, showing `displayText` when it is set, is not modelled.
- The mock backend in app/api/chat/route.ts. It is a stub whose `{ response }` field the client never reads. The backend is an input `Outcome` here.
- components/LoginModal.tsx is not part of this model. Only the credentials check it calls (`handleLogin`) is modelled.
- `fetch`, `response.json()`, `window.location`, `URL.createObjectURL`, `Date.now()` ids and timestamps, scroll timers, textarea resizing and focus, and the reset of the file picker's DOM value after a send or a removal (components/ChatInput.tsx:45-47, components/ChatInput.tsx:60-62). The network outcome and the location are parameters; message ids, timestamps and the preview URL are not modelled. A message carries the `File` itself in place of its preview URL.
- A decoded body of JSON `null` makes `data.message` throw. It is folded into `Outcome.Failed`, which gives the same error message.
- Concurrency. Overlapping sends and the stale `queryHistory` closure are not modelled. A send is `BeginSend` followed by `FinishSend`, one send at a time. A request that never settles (`BeginSend` without `FinishSend`) is the only interleaving the model expresses.
- Json.Parse: accepts JSON string arrays written without whitespace between tokens, and only characters outside the surrogate range in `\u` escapes. Other JSON that `JSON.parse` would accept is treated as unreadable. This covers whitespace, surrogate pairs and non-array values, which the source would adopt as the history. For every text the client itself stores, the two agree (`Json.ParseStringify`).
- Chat.LoadPreferences: models `JSON.parse` throwing as the loader stopping before model, version and port. What React then does with the uncaught error in the effect is not modelled.
- `trim` uses a fixed set of Unicode whitespace code points: the ECMAScript WhiteSpace and LineTerminator characters. `\D` is ASCII `[0-9]`.
- The `isAdmin` prop of the chat screen also decides whether the version and port controls are rendered (components/ChatInterface.tsx:207). Rendering is not modelled. Its other use is modelled: the chat passes it to the composer (components/ChatInterface.tsx:238), where it picks the effective mode (components/ChatInput.tsx:40). It is the `isAdmin` parameter of `Composer.Submit` and `Chat.SubmitFrom`.
- The form's multipart encoding. The request is the ordered list of `formData.append` entries.
