# ollama-next-chat core, modelled in Dafny

This project models the state and streaming logic of a small chat web app
that talks to a local language model. The app has four core pieces:

- **Message log** (`ChatContext`). One global, ordered list of
  `{role, content}` messages. It supports adding a message, growing the last
  message when it is the assistant's, and clearing the list.
- **Chatroom store** (`ChatroomContext`). A list of chatrooms and an
  active-room pointer. It supports create, select, delete and
  update-last-message. On mount it loads the list from the browser's
  key/value storage, and it writes the list back whenever the list changes.
- **Input box** (`ChatInput`). Its send handler rejects blank input, appends
  the user message, posts the prompt, and appends the answer from the reply.
  The answer is the text after the first `</think>`, trimmed.
- **Chat endpoint** (`ChatApi`). It rejects non-POST requests with 405 and
  invalid prompts with 400. It sends the history plus the prompt to the model
  backend. It relays every non-empty streamed chunk as one event-stream frame
  (`EventStream`, the format of section 9.2 of the WHATWG HTML Living
  Standard, "Server-sent events"). It ends with `data: [DONE]` or, on
  failure, with one error frame.

`JsPrimitives` states the JavaScript built-ins these rely on: `trim`,
`indexOf`, `slice`, the decimal rendering of a number in a template literal,
and `null` as `Option`.

Each provider is a class whose fields are its React state cells. Each
operation is a method whose `ensures` ties the new state to a pure function
of the old one, and the lemmas state the properties of those functions.
Some things the program does not compute itself: generated ids, the clock,
`JSON.stringify`/`JSON.parse`, the fetch reply and the backend stream. These
are parameters. The serialiser and the parser are function values, and the
lemmas that need it assume the parser inverts the serialiser.

The code has these quirks, and the model keeps them:

- **Delete.** The new active id is read from the list as it was before the
  delete (`src/context/ChatroomContext.tsx:68`). So deleting the active room
  while it heads the list leaves the pointer on the deleted id. It does not
  move to another room (`DeleteActiveFirstLeavesDanglingPointer`).
- **Answer extraction.** There is no `<think>…</think>` pair match and no
  separate thinking field. The answer is whatever follows the first
  `</think>`. With no tag, `indexOf` gives -1, the slice starts at 7, and the
  first seven characters are lost (`AnswerOfPlainReply`).
- **No stream decoding in the client.** The client has no byte decoder and
  no per-conversation log. It reads the reply with `response.json()`
  (`src/components/ChatInput.tsx:23`). The endpoint, however, answers a valid
  request with an event-stream body that starts with `data: `, which is not
  JSON. So, as the two files stand, that read would fail and land in
  `handleSend`'s `catch` (`src/components/ChatInput.tsx:40`). The model takes the reply as an input (`Reply`) and
  covers every outcome.
- **Mount removes bad data.** On mount the persist effect runs once with the
  initial empty list. So a stored value that is empty or does not parse is
  removed from storage (`MountDropsUnparsable`).

## Model

| member | source | states |
|---|---|---|
| `JsPrimitives.Trim` | src/components/ChatInput.tsx:10 | the result has no whitespace at either end, and it is empty exactly when the input is all whitespace (the send guard); `TrimKeepsMiddle` says which text it keeps |
| `JsPrimitives.LeadingBlanks` | src/components/ChatInput.tsx:10 | counts the whitespace the text starts with: everything before the count is whitespace, and the character at the count is not |
| `JsPrimitives.TrimKeepsMiddle` | src/components/ChatInput.tsx:37 | what `trim` keeps is the slice of the input that starts right after its leading whitespace, and only whitespace follows that slice |
| `JsPrimitives.TrimIdempotent` | src/components/ChatInput.tsx:37 | trimming twice gives the same text as trimming once |
| `JsPrimitives.IndexOf` | src/components/ChatInput.tsx:31 | -1 exactly when the pattern does not occur; otherwise the pattern occurs there and nowhere earlier |
| `JsPrimitives.Slice` | src/components/ChatInput.tsx:37 | `slice(start)` clamps a start past the end to the empty text and counts a negative start from the end |
| `JsPrimitives.DecimalString` | src/context/ChatroomContext.tsx:54 | the text of `${n}` is a non-empty run of digits with no leading zero unless n is 0 |
| `JsPrimitives.DecimalRoundTrip` | src/context/ChatroomContext.tsx:54 | reading the decimal text of a number back gives that number |
| `JsPrimitives.DecimalStringInjective` | src/context/ChatroomContext.tsx:54 | different numbers have different decimal texts |
| `ChatContext.WithMessage` | src/context/ChatContext.tsx:20-22 | the log grows by one, the earlier messages are kept, and the new last message is `{role, content}` |
| `ChatContext.WithTextAppended` | src/context/ChatContext.tsx:24-33 | appending text never changes the log's length |
| `ChatContext.AppendToEmptyLog` | src/context/ChatContext.tsx:26 | appending to the empty log returns the empty log |
| `ChatContext.AppendGrowsAssistant` | src/context/ChatContext.tsx:27-31 | when the last message is the assistant's, only its content changes, to old content followed by the new text |
| `ChatContext.AppendIgnoredUnlessAssistant` | src/context/ChatContext.tsx:26-31 | when the log is empty or ends with a user message, the log is returned unchanged |
| `ChatContext.AppendTouchesOnlyLast` | src/context/ChatContext.tsx:27-31 | no role changes, and no message before the last one changes |
| `ChatContext.AppendTwice` | src/context/ChatContext.tsx:29 | appending a and then b equals appending a followed by b |
| `ChatContext.AppendEmptyText` | src/context/ChatContext.tsx:29 | appending the empty text is the identity |
| `ChatContext.ChatProvider.constructor` | src/context/ChatContext.tsx:18 | the log starts empty |
| `ChatContext.ChatProvider.AddMessage` | src/context/ChatContext.tsx:20-22 | the new log is the old log followed by `{role, content}` |
| `ChatContext.ChatProvider.AppendToLastMessage` | src/context/ChatContext.tsx:24-33 | the new log is the append transition of the old one, has the same length, and is unchanged unless the last message is the assistant's |
| `ChatContext.ChatProvider.ClearMessages` | src/context/ChatContext.tsx:35-37 | the log is empty whatever it held |
| `ChatroomContext.NewChatName` | src/context/ChatroomContext.tsx:54 | the name is "New Chat " followed by the digits of the old room count plus one, with no leading zero |
| `ChatroomContext.NewChatNamesDistinct` | src/context/ChatroomContext.tsx:54 | rooms created at different list lengths get different names |
| `ChatroomContext.WithNewRoom` | src/context/ChatroomContext.tsx:51-57 | exactly one room is prepended, with the given id and time, no last message and the numbered name; the old rooms follow in order |
| `ChatroomContext.CreateKeepsIdsUnique` | src/context/ChatroomContext.tsx:51-57 | creating with an id no room has keeps all ids distinct |
| `ChatroomContext.WithoutRoom` | src/context/ChatroomContext.tsx:66 | a room is kept exactly when it was in the list and its id differs; no kept room has the id |
| `ChatroomContext.WithoutRoomConcat` | src/context/ChatroomContext.tsx:66 | deleting from a concatenation deletes from each part, so the kept rooms stay in their order |
| `ChatroomContext.WithoutAbsentRoom` | src/context/ChatroomContext.tsx:66 | deleting an id no room has leaves the list unchanged |
| `ChatroomContext.DeleteUndoesCreate` | src/context/ChatroomContext.tsx:51-66 | deleting a room just created with a fresh id gives back the old list |
| `ChatroomContext.FirstIdOrNull` | src/context/ChatroomContext.tsx:68 | null exactly when the list is empty or its first id is the empty text, else the first id |
| `ChatroomContext.ActiveAfterDelete` | src/context/ChatroomContext.tsx:67-68 | a non-active id leaves the pointer alone; the active id moves it to the first id of the pre-delete list, or null |
| `ChatroomContext.DeleteActiveFirstLeavesDanglingPointer` | src/context/ChatroomContext.tsx:65-69 | deleting the active room at the head of the list leaves the pointer on an id that no remaining room has |
| `ChatroomContext.DeleteActiveMovesToSurvivingHead` | src/context/ChatroomContext.tsx:65-69 | deleting the active room when another room heads the list makes that surviving room active |
| `ChatroomContext.WithLastMessage` | src/context/ChatroomContext.tsx:72-78 | length, order, ids and names are kept; exactly the rooms with the id get the message and the new time |
| `ChatroomContext.LastUpdateWins` | src/context/ChatroomContext.tsx:72-78 | of two updates of the same room, only the later one is visible |
| `ChatroomContext.Persist` | src/context/ChatroomContext.tsx:43-49 | a non-empty list is stored serialised under the key, an empty list removes the key, and other keys are untouched |
| `ChatroomContext.SavedRooms` | src/context/ChatroomContext.tsx:29-33 | a list is loaded exactly when the key holds a non-empty value that parses, and it is the parsed list |
| `ChatroomContext.Mount` | src/context/ChatroomContext.tsx:28-49 | without a loadable value the rooms are empty, nothing is active and the key is removed; otherwise the rooms are the loaded list, its first id is active, and the list is stored back |
| `ChatroomContext.PersistThenMount` | src/context/ChatroomContext.tsx:28-49 | a persisted non-empty list comes back on the next mount, first room active, storage unchanged, when the parser inverts the serialiser |
| `ChatroomContext.MountDropsUnparsable` | src/context/ChatroomContext.tsx:28-49 | a stored value that does not parse gives no rooms, no active room, and is removed from storage |
| `ChatroomContext.ChatroomProvider.constructor` | src/context/ChatroomContext.tsx:24-49 | the mounted provider's state is the result of the two effects on the given storage |
| `ChatroomContext.ChatroomProvider.CreateChatroom` | src/context/ChatroomContext.tsx:51-59 | the list becomes the create transition, the new id becomes active, and the list is persisted |
| `ChatroomContext.ChatroomProvider.SelectChatroom` | src/context/ChatroomContext.tsx:61-63 | the pointer becomes the id without a membership check; list and storage are unchanged |
| `ChatroomContext.ChatroomProvider.DeleteChatroom` | src/context/ChatroomContext.tsx:65-70 | the list becomes the filtered list, the pointer follows the pre-delete rule, and the list is persisted |
| `ChatroomContext.ChatroomProvider.UpdateChatroomLastMessage` | src/context/ChatroomContext.tsx:72-78 | the list becomes the update transition, the pointer is unchanged, and the list is persisted |
| `ChatInput.ExtractAnswer` | src/components/ChatInput.tsx:31-37 | the answer has no whitespace at either end |
| `ChatInput.FirstTagAfterPrefix` | src/components/ChatInput.tsx:31 | in a text made of a tag-free prefix, the tag, and anything, the first tag starts right after the prefix |
| `ChatInput.AnswerAfterFirstTag` | src/components/ChatInput.tsx:31-37 | the answer is the trimmed text after the first `</think>`, and later `</think>`s stay in it |
| `ChatInput.AnswerWithoutTag` | src/components/ChatInput.tsx:31-37 | without `</think>` the answer is the text from index 7 on, trimmed |
| `ChatInput.AnswerOfThinkingReply` | src/components/ChatInput.tsx:31-37 | a reply that opens with a `<think>` block loses the block, and the answer is the rest, trimmed |
| `ChatInput.AnswerOfTaglessReply` | src/components/ChatInput.tsx:31-37 | a reply without any `<` has no tag, so its answer is the reply minus its first seven characters, trimmed |
| `ChatInput.AnswerOfPlainReply` | src/components/ChatInput.tsx:31-37 | "Hello world" is shown as "orld" |
| `ChatInput.AssistantReply` | src/components/ChatInput.tsx:25-42 | at most one assistant message, present exactly when the reply has a message, holding its extracted answer |
| `ChatInput.ChatInputBox.constructor` | src/components/ChatInput.tsx:6-7 | empty input, not loading |
| `ChatInput.ChatInputBox.SetInput` | src/components/ChatInput.tsx:52 | the field takes the typed text |
| `ChatInput.ChatInputBox.BeginSend` | src/components/ChatInput.tsx:10-20 | blank input changes nothing and sends nothing; otherwise one user message with the untrimmed input is appended, the field is cleared, loading is raised, and the original input is the prompt |
| `ChatInput.ChatInputBox.FinishSend` | src/components/ChatInput.tsx:23-44 | the reply's assistant message, if any, is appended, and loading is false whatever the outcome |
| `ChatInput.ChatInputBox.HandleSend` | src/components/ChatInput.tsx:9-45 | blank input is a no-op; otherwise the log gains the user message and then the reply's assistant message, the field is cleared, loading ends false, and the prompt sent is the input |
| `EventStream.Frame` | src/pages/api/chat.ts:42 | a frame starts with `data: `, ends with a blank line, and carries the payload in between |
| `EventStream.Framed` | src/pages/api/chat.ts:38-45 | one frame per payload, in order |
| `EventStream.EventsOfFramed` | src/pages/api/chat.ts:42-50 | a reader that splits the body into lines at line feeds (only) and takes the `data: ` values gets back exactly the framed payloads, when none holds a line feed |
| `ChatApi.ModelMessages` | src/pages/api/chat.ts:28-29 | the model receives the history, or nothing, followed by exactly one user message with the prompt |
| `ChatApi.IsValidPrompt` | src/pages/api/chat.ts:18 | a prompt is accepted exactly when it is a string with at least one character; a missing prompt or one of another type is refused |
| `ChatApi.ReadableCount` | src/pages/api/chat.ts:38-39 | chunks are read up to, not including, the first one without a `message` |
| `ChatApi.Contents` | src/pages/api/chat.ts:41 | the contents that pass `chunk.message?.content`, in order, at most one per chunk |
| `ChatApi.ContentsNonEmpty` | src/pages/api/chat.ts:41 | every relayed content is non-empty |
| `ChatApi.Encoded` | src/pages/api/chat.ts:42 | each relayed content is serialised as a `{content}` object, in order |
| `ChatApi.StreamData` | src/pages/api/chat.ts:37-57 | the data of every frame written: only the error datum when the backend call fails or does not stream; otherwise the serialised contents of the chunks read, then `[DONE]` exactly when every chunk was read and the stream completed, else the error datum |
| `ChatApi.StreamingData` | src/pages/api/chat.ts:37-57 | a streamed reply's data is its serialised contents followed by exactly one terminal datum |
| `ChatApi.StreamEndsWithOneTerminal` | src/pages/api/chat.ts:37-57 | the last frame is `[DONE]` exactly when every chunk was read and the stream completed, the error frame otherwise, and no earlier frame is `[DONE]` |
| `ChatApi.ReaderRecoversContents` | src/pages/api/chat.ts:38-51 | decoding the frames of a completed stream gives every non-empty content in order, then `[DONE]` |
| `ChatApi.RelayChunks` | src/pages/api/chat.ts:37-45 | the loop writes the frames of the non-empty contents of the chunks read, stopping at the first chunk without a `message` |
| `ChatApi.StreamReply` | src/pages/api/chat.ts:37-57 | the body is the content frames, then `[DONE]` or the error frame, and the response is ended |
| `ChatApi.Handler` | src/pages/api/chat.ts:9-59 | non-POST gives 405 with `Allow: POST` and no frames; a missing, empty or non-string prompt gives 400 and no frames; otherwise the event-stream headers are set, the model gets history plus prompt, every written piece is a frame, and the response always ends |

## Left out

- React machinery: `useState`, `useEffect` scheduling, render batching and
  context lookup with its "must be used within a Provider" errors. Each
  operation runs as one event on the current state. So two creates batched
  in one render, which would read the same stale length, are not modelled.
- The presentation components (`ChatroomSidebar`, `ChatWindow`, the page and
  the app shell). They only map state to markup.
- `fetch`, `response.json()`, the `ollama.chat` client and `res.flush`. They
  are network I/O. Their outcomes are the inputs `Reply` and `Backend`.
- `JSON.stringify` and `JSON.parse`. They are the function parameters
  `encode` and `parse`. A stored value that parses to something other than a
  list of rooms is not modelled.
- `localStorage` is a `map` from keys to strings.
- `uuidv4()` and `Date.now()`. They are the parameters `id` and `now`. The
  id's freshness is a premise of `CreateKeepsIdsUnique` and
  `DeleteUndoesCreate`, not a precondition of `CreateChatroom`.
- `console.log`, `console.error` and the `LLM_MODEL` environment variable
  that names the model.
- JsPrimitives.Trim: uses a fixed whitespace set (ASCII white space, NBSP,
  BOM, U+2028, U+2029). It does not include every Unicode space separator
  that JavaScript's `trim` removes.
- ChatInput.ExtractAnswer: positions count Unicode characters, while
  JavaScript's `indexOf` and `slice` count UTF-16 code units. This also
  holds for `ChatInput.AnswerWithoutTag`, `JsPrimitives.IndexOf` and
  `JsPrimitives.Slice`. So text with a character outside the Basic
  Multilingual Plane before the cut is cut at a different place: with no
  tag, `"😀abcdefgh"` gives `"gh"` here and `"fgh"` in the program. A cut
  inside a surrogate pair, which leaves a lone surrogate, cannot be
  expressed.
- ChatInput.AnswerWithoutTag: "from index 7" counts characters, not UTF-16
  code units, as in the `ChatInput.ExtractAnswer` line above.
- ChatInput.AnswerOfTaglessReply: "the first seven characters" are seven
  characters, not seven UTF-16 code units, as in the
  `ChatInput.ExtractAnswer` line above.
- EventStream.Events: the reader ends a line at a line feed only. The
  standard's parser also ends one at a carriage return or CR LF, so the
  round trip `EventsOfFramed` is stated for that simpler reader, and payloads
  holding a carriage return are not covered for a full parser.
- ChatApi.Handler: does not model the `Content-Type: application/json` header
  that `res.json` adds.
- ChatApi.Handler: does not model a `req.body` that is `null` or
  `undefined` (for example the JSON body `null`), or a `history` that is
  truthy but not an array. Both throw inside the `try`
  (`src/pages/api/chat.ts:16`, `src/pages/api/chat.ts:29`) and write the
  error frame. An empty body reaches the 400 branch, modelled as
  `Prompt.Missing`.
- ChatApi.Handler: a chunk whose `message` has no `content` is treated like
  one with empty content.
- The response is a list of written pieces plus an `ended` flag, not a
  socket.
- Writing after the end is excluded by `Response.Write`'s precondition; the
  handler never does it.
