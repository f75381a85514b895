# guide-me-ai, modelled in Dafny

guide-me-ai is a career-guidance chat application. A signed-in user keeps
chat sessions. Each message is relayed to a generative backend, and the
reply is streamed back fragment by fragment. The exchange is stored, and a
session still called "Untitled Chat" is titled from the first words of the
message. The browser renders replies with a small line-based Markdown
renderer.

This project models the core of the application:

- **Server endpoints.**
  - `POST /api/chat` (module `ChatRoute`): authentication, the owner-scoped
    session lookup, the fragment relay, the title rule, the best-effort
    persistence and the inline error marker.
  - `GET`/`POST`/`PATCH`/`DELETE /api/sessions` (module `SessionsRoute`).
  - Both run against a model of the two-table store that Prisma fronts
    (module `Prisma`, class `Database`).
- **The two client-side stores.**
  - The module-level session list of `lib/SessionStore.ts` (class
    `SessionStore.Store`).
  - The `localStorage` list of `utils/chatStore.ts` (class
    `ChatStore.ChatStorage`).
- **The Markdown line classifier** of `MarkdownRenderer.tsx` (module
  `Markdown`). It is a pure specification (`KindOf`, `Step`, `Parse`) with a
  `while`-loop implementation (`Render`) proved equal to it.
- **Component state.** Each React component's state is a class whose fields
  are the `useState` variables.
  - The home page (`HomePage.Home`).
  - The `ChatClient` wrapper (`ChatClient.Client`).
  - The chat window (`ChatWindow.Window`).
  - The sidebar (`Sidebar.Panel`).
  - A handler method takes the outcome of each request it awaits as a
    parameter.

Shared pieces:

- `Text`: the JavaScript string operations used, on `seq<char>`: `split`,
  `join`, `trim` and the ECMAScript whitespace class, and `+=` accumulation.
- `Lists`: `map`, `findIndex`, `filter`, and the stable descending sort used by
  `sort`/`orderBy`.
- `Protocol`: the values that cross HTTP, and the client's stream-reading
  loop.
- `Disclosure`: the one-open-entry toggle shared by the FAQ and the session
  menu.

## Model

| member | source | states |
|---|---|---|
| Text.ConcatAppend | app/components/ChatClient.tsx:38-45 | accumulating fragments with `+=` distributes over appending fragment lists |
| Text.ConcatEmpty | app/components/ChatWindow.tsx:41-43 | the accumulated reply is empty exactly when every fragment is empty |
| Text.Concat | app/components/ChatClient.tsx:43 | `acc += fragment` over the fragments in order; its properties are `ConcatAppend` and `ConcatEmpty` |
| Text.Split | app/components/MarkdownRenderer.tsx:14 | `split` yields at least one piece, and no piece contains the separator |
| Text.Join | app/api/chat/route.ts:57 | `parts.join(sep)`; its relation to `Split` is stated by `JoinSplit`, `SplitJoin` and `JoinPrefix` |
| Text.JoinSplit | app/api/chat/route.ts:56-58 | joining the pieces of a split with the same separator gives back the string |
| Text.SplitJoin | app/api/chat/route.ts:56-58 | splitting a join of separator-free pieces gives back the pieces |
| Text.SplitNoSeparator | app/components/MarkdownRenderer.tsx:73 | a string without the separator splits into itself |
| Text.SplitAtSeparator | app/components/MarkdownRenderer.tsx:73 | a split at the first separator gives the text before it, then the split of the rest |
| Text.JoinPrefix | app/api/chat/route.ts:56-58 | the join of the first n pieces, followed by the separator, is a prefix of the join of all of them |
| Text.TrimStart | app/components/ChatWindow.tsx:31-32 | the result is a suffix of the input, empty exactly for a blank string, and starts with non-whitespace otherwise |
| Text.TrimEnd | app/components/ChatWindow.tsx:31-32 | the mirror image: a prefix of the input that does not end in whitespace |
| Text.TrimStartRemovesBlank | app/components/ChatWindow.tsx:31-32 | what `TrimStart` cuts off the front is whitespace only |
| Text.TrimEndRemovesBlank | app/components/ChatWindow.tsx:31-32 | what `TrimEnd` cuts off the back is whitespace only |
| Text.Trim | app/components/ChatWindow.tsx:31-32 | `trim()` is empty exactly for a blank string; otherwise neither end is whitespace |
| Text.TrimRemovesBlank | app/components/ChatWindow.tsx:31-32 | the input is a whitespace-only prefix, the trimmed string, and a whitespace-only suffix |
| Lists.FirstIndex | utils/chatStore.ts:55 | `findIndex`: the first position holding x, and None exactly when x is absent |
| Lists.Map | app/api/sessions/route.ts:17 | `map`: the result has one entry per element, each the function applied to that element |
| Lists.MapAppend | app/api/sessions/route.ts:17 | mapping a concatenation maps each part |
| Lists.MapMembers | app/api/sessions/route.ts:17 | a value is in the mapped list exactly when some element maps to it |
| Lists.Filter | utils/chatStore.ts:77 | `filter`: every element kept passes the test, and nothing changes when all pass |
| Lists.FilterMembers | utils/chatStore.ts:77 | the elements kept are exactly the elements of the input that pass the test |
| Lists.FilterIdempotent | utils/chatStore.ts:76-79 | filtering twice with the same test is filtering once |
| Lists.FilterPairwise | app/api/sessions/route.ts:87-95 | a relation that holds between every ordered pair of the input holds between every ordered pair of the output (order is kept) |
| Lists.FilterAppend | app/api/chat/route.ts:45-53 | filtering a concatenation filters each part |
| Lists.InsertDesc | utils/chatStore.ts:46 | an insertion into a descending list keeps it descending and adds exactly that element |
| Lists.SortDesc | utils/chatStore.ts:46 | the result is sorted by descending key and is a permutation of the input |
| Lists.SortDescSorted | utils/chatStore.ts:46 | a list already in descending order is returned unchanged |
| Protocol.SendTranscript | app/components/ChatClient.tsx:15-49 | the user's message is appended first; the assistant's reply, the concatenation of all chunks, follows exactly when the body is read to the end |
| Protocol.Authenticated | app/api/chat/route.ts:16 | the guard `session?.user?.id`: a user id is present and not the empty string |
| Protocol.SendSettled | app/components/ChatClient.tsx:20-45 | `onSend` rejects exactly when `fetch` or a `read()` rejects; a missing body resolves |
| Protocol.StreamUpdates | app/components/ChatClient.tsx:29-45 | `onStreamUpdate` receives the body's chunks in order, and nothing when there is no body |
| Protocol.ReadBody | app/components/ChatClient.tsx:38-45 | the reader loop forwards every chunk in order, and the reply is their concatenation |
| Prisma.Lookup | app/api/sessions/route.ts:59-66 | the row a primary-key `where` selects, owner included, or None exactly when no row matches |
| Prisma.FindOwned | app/api/chat/route.ts:29-39 | `findUnique({ id, userId })` finds a row with that id and owner, and is None exactly when no such row exists |
| Prisma.Retitled | app/api/sessions/route.ts:59-66 | an update keeps the table's size and its id column |
| Prisma.RetitledNoMatch | app/api/sessions/route.ts:59-66 | an update whose `where` matches nothing leaves the table as it was |
| Prisma.OwnedNewestFirst | app/api/sessions/route.ts:14-18 | `findMany` returns exactly the owner's rows, as a permutation, by descending `createdAt` |
| Prisma.Project | app/api/sessions/route.ts:17 | `select: { id: true, title: true }`: each row's summary, in row order, through `Lists.Map`; its ids are stated by `Sidebar.ProjectIds` |
| Prisma.KeptSessionIds | app/api/sessions/route.ts:87-95 | deleting one session keeps every other session id |
| Prisma.Database.constructor | app/api/sessions/route.ts:34-41 | an empty store satisfies the key constraints |
| Prisma.Database.CreateSession | app/api/sessions/route.ts:34-41 | `create` succeeds exactly for a fresh id, appends the row and keeps the primary and foreign keys valid |
| Prisma.Database.UpdateTitle | app/api/sessions/route.ts:59-66 | `update` succeeds exactly when a row matches; only that row's title changes |
| Prisma.Database.CreateMessage | app/api/chat/route.ts:60-68 | `message.create` succeeds exactly for an existing session (the foreign key) |
| Prisma.Database.DeleteSessionWithMessages | app/api/sessions/route.ts:87-95 | the transaction commits exactly when the owner's session exists. It then removes that session and all its messages; otherwise neither table changes |
| ChatRoute.ErrorMarker | app/api/chat/route.ts:69-73 | the marker is `\n[Error: <message>]` for a thrown Error and `\n[Error: Unknown error]` for anything else; it always starts with `\n[Error: ` and ends with `]` |
| ChatRoute.ForwardedText | app/api/chat/route.ts:45-53 | skipping empty fragments does not change the concatenated reply |
| ChatRoute.ForwardFragments | app/api/chat/route.ts:45-53 | the enqueued chunks are the non-empty fragments in order, and `fullReply` is the whole generated text |
| ChatRoute.TitleFor | app/api/chat/route.ts:57 | the first six space-separated tokens joined by spaces, with "…" after them when there are more; what it promises is stated by `ShortMessageTitle`, `LongMessageTitle` and `EmptyTitle` |
| ChatRoute.ShortMessageTitle | app/api/chat/route.ts:56-58 | a message of at most six space-separated tokens is its own title |
| ChatRoute.LongMessageTitle | app/api/chat/route.ts:56-58 | a longer message is titled by its first six tokens, which begin the message, followed by "…" |
| ChatRoute.EmptyTitle | app/api/chat/route.ts:56-58 | only the empty message derives the empty title |
| ChatRoute.MaybeTitle | app/api/chat/route.ts:56-58 | a title is derived exactly while the stored title is "Untitled Chat" |
| ChatRoute.TitleUpdate | app/api/chat/route.ts:63-65 | the title is written exactly when the stored title is "Untitled Chat" and the message is non-empty |
| ChatRoute.ExchangeRows | app/api/chat/route.ts:61-62 | at most two rows, all of the session; the user message is among them exactly when its write succeeds, and the reply exactly when its write succeeds; with both, the user message comes first |
| ChatRoute.PersistExchange | app/api/chat/route.ts:60-68 | each settled write that succeeds is applied; a failed one changes nothing; the block never fails |
| ChatRoute.Post | app/api/chat/route.ts:13-89 | 401 without a user and 500 for an unreadable body. A lookup fault or a missing/foreign session streams the error text without calling the backend. Otherwise the stream is the non-empty fragments, plus an error marker when generation throws; the exchange and title are persisted only when generation completes |
| SessionsRoute.Get | app/api/sessions/route.ts:7-24 | 401 without a user and 500 when the query throws. Otherwise 200 with the summaries of exactly the caller's sessions, newest first |
| SessionsRoute.Post | app/api/sessions/route.ts:27-46 | 401 without a user. Otherwise one new "Untitled Chat" row owned by the caller, or 500 and no change |
| SessionsRoute.Patch | app/api/sessions/route.ts:49-73 | 401 without a user, and 500 with no change when the body cannot be read. 400 for a missing or empty id or title. Otherwise only the caller's matching session is retitled, and with none the reply is 500 and nothing changes |
| SessionsRoute.Delete | app/api/sessions/route.ts:76-101 | 401, or 400 for a missing id. Otherwise the caller's session and all its messages are deleted together, and for any other session the reply is 500 and no row is removed |
| SessionStore.TitleRule | lib/SessionStore.ts:48-50 | the title changes exactly on a user message to "New Chat", and then to the first 30 characters of the content (all of it when shorter) followed by "..." |
| SessionStore.TitleAfter | lib/SessionStore.ts:48-50 | the title after one message; the rule is stated by `TitleRule` and `RenamedTitleIsFinal` |
| SessionStore.RenamedTitleIsFinal | lib/SessionStore.ts:48-50 | after a rename no later message renames the session again |
| SessionStore.Reversed | lib/SessionStore.ts:25 | reversal keeps the length |
| SessionStore.ReversedAppend | lib/SessionStore.ts:25 | reversing a concatenation reverses both parts and swaps them |
| SessionStore.ReversedReversed | lib/SessionStore.ts:25 | reversing twice gives the list back |
| SessionStore.Store.constructor | lib/SessionStore.ts:15 | the list starts empty |
| SessionStore.Store.CreateSession | lib/SessionStore.ts:18-27 | a new "New Chat" session with no messages is put in front of the list |
| SessionStore.Store.GetSessions | lib/SessionStore.ts:30-32 | the list itself: the ids in reverse creation order |
| SessionStore.Store.GetSession | lib/SessionStore.ts:35-37 | `find`: the first session in the list with the id, and None exactly when the id is absent |
| SessionStore.Store.AddMessage | lib/SessionStore.ts:40-52 | an unknown id changes nothing. Otherwise only the first session with the id gets the message appended and is retitled by the title rule |
| ChatStore.Without | utils/chatStore.ts:77 | every session with the id is gone, all others are kept, and an absent id changes nothing |
| ChatStore.WithoutIdempotent | utils/chatStore.ts:76-79 | deleting twice is deleting once |
| ChatStore.ChatStorage.constructor | utils/chatStore.ts:17 | the storage holds the given item |
| ChatStore.ChatStorage.ReadAll | utils/chatStore.ts:19-29 | a non-empty result exists only with a window and a stored, parsed array; every other case reads as [] |
| ChatStore.ChatStorage.WriteAll | utils/chatStore.ts:31-34 | with a window the list is stored and reads back unchanged; without one nothing is written |
| ChatStore.ChatStorage.CreateSession | utils/chatStore.ts:36-43 | the new session, titled "New Chat" by default, is stored in front of the others |
| ChatStore.ChatStorage.ListSessions | utils/chatStore.ts:45-47 | the stored sessions, most recently updated first, as a permutation |
| ChatStore.ChatStorage.GetSession | utils/chatStore.ts:49-51 | `find`: the first stored session with the id, and None exactly when the id is absent |
| ChatStore.ChatStorage.AppendMessage | utils/chatStore.ts:53-65 | an unknown id writes nothing. Otherwise the first session with the id gets the message and the new time, in place |
| ChatStore.ChatStorage.RenameSession | utils/chatStore.ts:67-74 | an unknown id writes nothing. Otherwise only the title and time of that session change, and its messages are kept |
| ChatStore.ChatStorage.DeleteSession | utils/chatStore.ts:76-79 | the list without the id is written back, even when nothing was readable |
| Markdown.DigitRun | app/components/MarkdownRenderer.tsx:113 | the maximal run of leading ASCII digits |
| Markdown.NumberMarker | app/components/MarkdownRenderer.tsx:113-117 | a non-zero result is a match of digits, a dot and a whitespace character |
| Markdown.NumberMarkerMatch | app/components/MarkdownRenderer.tsx:113-117 | conversely, one or more digits, a dot and a whitespace character are matched, up to and including the whitespace |
| Markdown.BlankLineKind | app/components/MarkdownRenderer.tsx:157-175 | a line falls to the line-break branch exactly when it is whitespace only |
| Markdown.KindOf | app/components/MarkdownRenderer.tsx:22-175 | the first branch whose test the line passes, in the renderer's order; what each branch does is stated by the `Step…` lemmas and `BlankLineKind` |
| Markdown.InGroup | app/components/MarkdownRenderer.tsx:96 | the loop test of a list or quote: a marker line of that kind, or a blank line (lines 115 and 134 for the other kinds) |
| Markdown.StripMarker | app/components/MarkdownRenderer.tsx:98 | a group line without its marker: `slice(2)`, or the numbered marker removed (lines 117 and 136 for the other kinds); stated by `StripMarkerSuffix` |
| Markdown.StripMarkerSuffix | app/components/MarkdownRenderer.tsx:98 | an item is a suffix of its line |
| Markdown.LineItem | app/components/MarkdownRenderer.tsx:97-99 | what one group line contributes: nothing for a blank line, the stripped text otherwise; `GroupItemsNext` states it for the loop |
| Markdown.GroupItems | app/components/MarkdownRenderer.tsx:96-101 | a list or quote has at most one item per line it spans |
| Markdown.GroupEnd | app/components/MarkdownRenderer.tsx:96-101 | a group ends inside the text, on the first line from its start that it does not absorb, or at the end |
| Markdown.GroupEndRun | app/components/MarkdownRenderer.tsx:96-101 | every line the group spans is a marker line of its kind or a blank line |
| Markdown.GroupEndAt | app/components/MarkdownRenderer.tsx:96-101 | that end is the only index with both properties |
| Markdown.GroupEndNext | app/components/MarkdownRenderer.tsx:96-101 | an unfolding step of `GroupEnd` for the inner loop: an absorbed line does not move the end |
| Markdown.GroupItemsNext | app/components/MarkdownRenderer.tsx:96-101 | an unfolding step of `GroupItems` for the inner loop: one more group line adds nothing when blank and its marker-stripped text otherwise |
| Markdown.FenceEnd | app/components/MarkdownRenderer.tsx:47-50 | a code block runs up to the next fence line, or to the end of the text |
| Markdown.FenceEndAt | app/components/MarkdownRenderer.tsx:47-50 | that end is the only index with this property |
| Markdown.Spans | app/components/MarkdownRenderer.tsx:73-86 | the texts of the spans are the pieces, and exactly the odd-numbered spans are code |
| Markdown.Lines | app/components/MarkdownRenderer.tsx:47-50 | the lines of a range, in order |
| Markdown.FenceLanguage | app/components/MarkdownRenderer.tsx:43 | the language is never empty and neither starts nor ends with whitespace (line 56 supplies "text") |
| Markdown.FenceLanguageTrims | app/components/MarkdownRenderer.tsx:43-56 | the language is "text" when the rest of the fence line is blank, and otherwise that rest with whitespace-only ends cut off |
| Markdown.FenceBody | app/components/MarkdownRenderer.tsx:44-50 | the code lines are the longest run of non-fence lines after the fence line, and the line after them, if any, is a fence |
| Markdown.FenceBlock | app/components/MarkdownRenderer.tsx:42-69 | the cursor after a code block is at least two past its fence line (the fence line, then the closing fence or the end) and at most one past the last line |
| Markdown.InlineBlock | app/components/MarkdownRenderer.tsx:72-92 | a line with a backtick becomes an inline-code paragraph |
| Markdown.GroupBlock | app/components/MarkdownRenderer.tsx:94-149 | a list or quote consumes at least its first line and never runs past the text |
| Markdown.Step | app/components/MarkdownRenderer.tsx:18-177 | each turn of the outer loop moves the cursor forward and at most one past the last line |
| Markdown.StepHeading | app/components/MarkdownRenderer.tsx:22-40 | a heading line becomes a heading whose marker plus text is the line; its level is 3, 2 or 1 exactly for the `### `, `## ` and `# ` branches, tried in that order |
| Markdown.StepFence | app/components/MarkdownRenderer.tsx:42-69 | a fence line's turn is a code block of `FenceBody`, in the language of the trimmed rest of the fence line or "text", with line numbers exactly for more than five lines, and the next turn starts past the closing fence |
| Markdown.StepInline | app/components/MarkdownRenderer.tsx:72-92 | the span texts are the backtick split of the line, and joined by backticks give back the line; exactly the odd spans are code |
| Markdown.StepGroup | app/components/MarkdownRenderer.tsx:94-149 | a list or quote spans exactly its group lines, stops at the first other line, and has the right constructor |
| Markdown.StepBreak | app/components/MarkdownRenderer.tsx:173-175 | a line break is produced exactly for a whitespace-only line |
| Markdown.CursorsCover | app/components/MarkdownRenderer.tsx:18-178 | the blocks come from a strictly increasing run of cursors starting at 0, chained by `Step`, that reaches the end of the text |
| Markdown.BlocksBound | app/components/MarkdownRenderer.tsx:18-178 | the output has at least one block and at most one block per line |
| Markdown.ScanFence | app/components/MarkdownRenderer.tsx:44-50 | the inner loop stops at the fence end and collects exactly the lines before it |
| Markdown.ScanGroup | app/components/MarkdownRenderer.tsx:95-101 | the inner loop stops at the group end and collects exactly the group's items |
| Markdown.RenderLine | app/components/MarkdownRenderer.tsx:19-175 | one turn of the loop yields `Step`'s block, and its last line is one before `Step`'s next cursor |
| Markdown.Parse | app/components/MarkdownRenderer.tsx:18-178 | the blocks from a cursor to the end, one `Step` at a time; stated by `ParseStep`, `CursorsCover` and `BlocksBound` |
| Markdown.ParseStep | app/components/MarkdownRenderer.tsx:18-178 | an unfolding step of `Parse` for the outer loop: the blocks from a cursor are the turn's block followed by the blocks from the cursor it leaves |
| Markdown.RenderLines | app/components/MarkdownRenderer.tsx:16-178 | the outer loop pushes exactly `Parse` of the lines from cursor 0 |
| Markdown.Render | app/components/MarkdownRenderer.tsx:12-178 | the rendered blocks are exactly `Parse` of the content's lines |
| Disclosure.Toggle | app/page.tsx:231 | clicking an entry opens it exactly when it was not the open one; at most that entry is open afterwards |
| Disclosure.ToggleTwice | app/page.tsx:231 | two clicks on one entry restore the state when that entry or nothing was open, and leave everything closed when another entry was open |
| HomePage.LoadedMessages | app/page.tsx:16-33 | the fetched transcript, or [] when the request throws or has no messages |
| HomePage.Home.constructor | app/page.tsx:10-14 | no active session, an empty transcript, the sidebar closed, no FAQ open |
| HomePage.Home.LoadSession | app/page.tsx:16-33 | an empty id clears the page; any other id becomes active, closes the sidebar and takes the fetched transcript |
| HomePage.Home.HandleSend | app/page.tsx:35-65 | does nothing without an active session; otherwise it posts to that session and updates the transcript, the stream and the outcome as `onSend` does |
| HomePage.Home.NewChat | app/page.tsx:105-122 | a created session is loaded and the refresh counter goes up by one; a refusal or an error only raises its alert |
| HomePage.Home.ToggleFAQ | app/page.tsx:231 | the open FAQ entry toggles, and nothing else changes |
| ChatClient.Client.constructor | app/components/ChatClient.tsx:11-13 | an empty transcript for the fixed session |
| ChatClient.Client.OnSend | app/components/ChatClient.tsx:15-49 | posts the message for the fixed session, forwards the chunks, and updates the transcript as `SendTranscript` says |
| ChatWindow.Window.constructor | app/components/ChatWindow.tsx:17-19 | empty input, no streamed text, not typing |
| ChatWindow.Window.ShowsTypingDots | app/components/ChatWindow.tsx:99 | the dots show while typing and before the first chunk |
| ChatWindow.Window.ShowsInputPreview | app/components/ChatWindow.tsx:115 | the preview shows for non-blank input |
| ChatWindow.Window.ShowsStreamingBubble | app/components/ChatWindow.tsx:132 | the bubble shows once some text has streamed |
| ChatWindow.Window.DotsGiveWayToBubble | app/components/ChatWindow.tsx:99-132 | the dots and the bubble never show together, and while typing one of them does |
| ChatWindow.Window.Edit | app/components/ChatWindow.tsx:157 | typing replaces the input only |
| ChatWindow.Window.BeginSubmit | app/components/ChatWindow.tsx:30-40 | blank input sends nothing. Otherwise the input is sent and cleared and typing starts; the dots show, and neither the bubble nor the preview does |
| ChatWindow.Window.OnStreamUpdate | app/components/ChatWindow.tsx:41-43 | each chunk is appended to the streamed text |
| ChatWindow.Window.FinishSubmit | app/components/ChatWindow.tsx:44-49 | typing stops; the streamed text is cleared only when the send resolved |
| ChatWindow.Window.HandleSubmit | app/components/ChatWindow.tsx:30-50 | the whole submission. The streamed text is the concatenation of the updates until the end, then cleared when the send resolved and kept when it rejected |
| Sidebar.ReplaceById | app/components/Sidebar.tsx:92 | renaming keeps the list's length |
| Sidebar.ReplaceByIdSpec | app/components/Sidebar.tsx:92 | exactly the entries with the id are replaced, in place; an absent id changes nothing; ids are kept when the new entry has the id |
| Sidebar.ReplaceByIdIdempotent | app/components/Sidebar.tsx:92 | applying the same rename twice is applying it once |
| Sidebar.RemoveById | app/components/Sidebar.tsx:107 | the id is gone, every other entry is kept, and an absent id changes nothing |
| Sidebar.ProjectCons | app/api/sessions/route.ts:17 | the projection of a row on top of rows is its summary on top of theirs |
| Sidebar.ProjectIds | app/api/sessions/route.ts:17 | the ids the sidebar lists are the ids of the rows it was sent, in order |
| Sidebar.DeleteAgrees | app/components/Sidebar.tsx:99-113 | removing the id locally gives the same list as projecting the rows left by the server's delete |
| Sidebar.RenameAgrees | app/components/Sidebar.tsx:78-97 | over the caller's own sessions, replacing the entry locally gives the same list as projecting the server's retitled rows |
| Sidebar.Panel.constructor | app/components/Sidebar.tsx:21-23 | no sessions, not loading, no menu open |
| Sidebar.Panel.FetchSessions | app/components/Sidebar.tsx:45-55 | the list becomes the fetched one, or [] on any failure |
| Sidebar.Panel.BeginNew | app/components/Sidebar.tsx:58 | loading starts |
| Sidebar.Panel.FinishNew | app/components/Sidebar.tsx:59-75 | a created session goes in front and is selected; a refusal or an error only raises its alert; loading ends in every case |
| Sidebar.Panel.HandleRename | app/components/Sidebar.tsx:78-97 | the menu closes; an empty or cancelled answer sends nothing. Otherwise the list entry is replaced on success, and the list is unchanged with an alert on failure |
| Sidebar.Panel.HandleDelete | app/components/Sidebar.tsx:99-113 | the menu closes; without confirmation nothing is sent. On success the entry is removed and the active session deselected if it was this one; on failure the list is unchanged with an alert |
| Sidebar.Panel.ToggleMenu | app/components/Sidebar.tsx:115-118 | the session's menu toggles, and nothing else changes |
| Sidebar.Panel.ClickOutside | app/components/Sidebar.tsx:37-43 | a click closes the menu when one is open under a non-empty id, and nothing else changes; with no menu open, or the id "", no listener is attached and nothing changes |

## Left out

- Authentication is reduced to the user id the session yields, and `Authenticated` means that id is truthy. NextAuth, the auth pages and their callbacks are not part of this model.
- Prisma failures other than a missing row and a duplicate id are left out. A reply to such a failure is modelled only where the handler catches it: the chat lookup fault and GET's failing query.
- ChatRoute.Post: the three writes under `Promise.allSettled` run concurrently. Here they run in a fixed order, each one's success given as a parameter. Another interleaving ends with the same rows, but the two message rows may be appended in the other order, so the tables agree as sets of rows, not as sequences.
- The generative backend (`genAI.getGenerativeModel` and `model.generateContentStream`, app/api/chat/route.ts lines 42-43) is given as the fragments it produces and how the stream ends.
- The bytes of the response body, its UTF-8 decoding and `TextDecoder` chunk boundaries are not modelled. The client sees text chunks.
- JSON encoding and decoding are abstracted. The request body of `POST /api/chat` and of `PATCH /api/sessions` is an `Option`, `None` when `req.json()` throws, and `localStorage`'s text is represented by what `JSON.parse` makes of it.
- `Math.random`, `Date.now`, `new Date()` and `uuid()` become parameters (an id and a time).
- SessionStore.Store.GetSessions, SessionStore.Store.CreateSession, SessionStore.Store.GetSession: JavaScript hands out the shared array and the shared session objects, and `addMessage` then changes a session in place (`push` and the title assignment), which a caller holding that object sees. The model returns lists and sessions as values, so this aliasing is not captured.
- SessionStore.TitleRule: `slice(0, 30)` counts UTF-16 code units; the model counts Dafny characters. A surrogate pair therefore counts as two units in the source and one character here.
- ChatStore.ChatStorage.ListSessions: the source's `sort` is stable. The contract states order and permutation but not stability, although `Lists.SortDesc` is an insertion sort that keeps equal keys in their original order.
- ChatStore.ChatStorage.ListSessions: `sort` also reorders the array it was given in place. That array is a fresh read, so nothing observes the difference.
- Markdown.Step: its own contract states only how far the cursor moves. What each branch produces is stated by the `Step…` lemmas, and `Markdown.Render` is proved equal to `Parse`, which is built from `Step`.
- The bold and italic regular-expression replacement of a paragraph (MarkdownRenderer.tsx lines 159-162) is left out: a paragraph keeps its raw line. The HTML injection, `SyntaxHighlighter`, JSX element keys and styling are also left out.
- React's scheduling is left out. Each handler is modelled as running to completion with the outcomes of its awaits given in order. Updates from other handlers cannot interleave between awaits.
- `console.error`, `alert`, `prompt` and `confirm` are left out. An alert is returned as its text, and a prompt's answer and a confirmation are parameters.
- The mobile header, the sidebar open/close toggle on small screens, scrolling, theming and the `refreshTrigger` effect that calls `fetchSessions` are left out. The counter itself is modelled.
- `app/api/sessions/[id]/route.ts`, the tRPC router `server/api/routers/chat.ts`, `app/chat/page.tsx` and the Prisma client setup are not part of this model.
- Cancellation of a request or a stream (`AbortController`, unmounting) is not modelled.
