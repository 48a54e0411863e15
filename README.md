# Chat session state of a chat client, in Dafny

This project models the client-side state of a chat web application and proves
properties of it. The application keeps a registry of chats (newest first), a
pointer to the current chat, that chat's message log, a loading flag, an error
and a streaming buffer for the reply being revealed, and a light/dark theme.
All of it is mirrored in browser storage under the keys `chats`,
`currentChatId`, `messages_<id>` and `theme`. The model covers the operations
on this state: create, switch, delete and clear a chat, toggle the theme, and
send a message. Sending trims the text and ignores blank input. It opens a chat
titled from the first line when none is current, posts the log to the backend,
then reveals the reply word by word and appends it, or records an error. The
model also covers two sidebar components. The search box keeps up to five
recent searches, most recent first, without repeats. The chat list filters
chats by title or stored message content, ignoring case, and puts a
confirmation step in front of deletion.

Files, one module each:

- `wrappers.dfy` (`Wrappers`): `Option`, for `null` and absent storage keys.
- `seqs.dfy` (`Seqs`): `filter`, `slice(0, n)`, subsequences, no duplicates.
- `text.dfy` (`Text`): `trim`, `split`/`join` on one character, first line,
  ASCII `toLowerCase`, `includes`.
- `chat_session.dfy` (`ChatSession`): the provider's state as a value `Session`
  (state plus store). It has one function per operation and the lemmas that
  state what each operation does.
- `chat_provider.dfy` (`ChatProvider`): the class `ChatProvider`, whose fields
  are the React state and the store. Each operation method requires that the
  store mirrors the state (`Valid()`), which mounting establishes. It is proved
  to produce exactly the state the matching `ChatSession` function gives
  (`State() == F(old(State()))`) and to keep `Valid()`. `AddUserMessage` and
  `Settle` are the two steps of `SendMessage`, before and after the backend
  answers. They are not operations of their own and do not promise `Valid()`.
- `sidebar_search.dfy` (`SidebarSearch`): the history update, the load-time
  truncation, and the class `SearchBox`.
- `sidebar.dfy` (`Sidebar`): the chat filter and the class `Sidebar`, with the
  memoised chat list and the delete confirmation.

Each operation is one atomic step. It ends with the persistence effects of
`ChatContext.jsx` having run (`ChatSession.Persisted`). React runs
those effects only when their inputs change. Running them after every
operation gives the same store, because of the invariant
`ChatSession.Synced`: the store already holds the registry, the current id,
the theme and the non-empty current log. So re-running an effect rewrites the
same values. `clearError`, for instance, leaves the store untouched
(`ChatSession.ClearErrorEffect`).

The sidebar's chat list is memoised on the registry and the query. The memo
filter reads the stored logs, but it runs again only when one of those two
changes (`Sidebar.Sidebar.Render`). So after a message is sent to an existing
chat, or a chat is cleared, the list shown can be stale until the registry or
the query changes. The model keeps that behaviour for operations on an existing
chat; the one case where it differs is listed under "## Left out".

The reveal reproduces runs of spaces exactly. Splitting on a single space
leaves empty words between consecutive spaces, and joining puts the spaces
back (`Text.JoinSplit`), so the last buffer is always the reply itself. Only
the granularity is by word.

## Model

| member | source | states |
|---|---|---|
| `ChatSession.Persisted` | src/context/ChatContext.jsx:44-69 | the effects change only the store; they store the theme, the registry and the current id (or remove it); the stored logs change only at the current id, and only when a chat is current and its log is non-empty; afterwards the store mirrors the state, and on a mirrored state nothing changes |
| `ChatProvider.ChatProvider.RunEffects` | src/context/ChatContext.jsx:44-69 | the object's state after the effects is `Persisted` of the state before |
| `ChatProvider.ChatProvider.constructor` | src/context/ChatContext.jsx:15-42 | mounting reads registry, current id and theme (falling back to the platform preference), loads the current chat's stored log, and leaves the store mirroring the state |
| `ChatSession.LoadKeepsLogs` | src/context/ChatContext.jsx:35-42 | mounting never rewrites a stored log; nothing is loading and there is no error |
| `ChatSession.ReloadRoundTrip` | src/context/ChatContext.jsx:15-69 | reloading a mirrored store gives back the same registry in the same order, current id, theme, non-empty log and store |
| `ChatSession.CreateNewChatEffect` | src/context/ChatContext.jsx:74-87 | exactly one chat "New Chat" with the given id is put in front of the unchanged registry and made current; the log is empty, streaming and error cleared, stored logs untouched |
| `ChatProvider.ChatProvider.CreateNewChat` | src/context/ChatContext.jsx:74-87 | from a mirrored state, leaves the state `ChatSession.CreateNewChat` gives, with the store mirroring it |
| `ChatSession.SwitchChatEffect` | src/context/ChatContext.jsx:92-98 | the id becomes current, the log becomes its stored log or empty, streaming and error are cleared, and neither the registry nor the stored logs change |
| `ChatProvider.ChatProvider.SwitchChat` | src/context/ChatContext.jsx:92-98 | from a mirrored state, leaves the state `ChatSession.SwitchChat` gives, with the store mirroring it |
| `ChatSession.DeleteChatEffect` | src/context/ChatContext.jsx:103-111 | a chat is kept exactly when its id differs, as often as it occurred and in the same order; only `messages_<id>` leaves the store; current id and log are reset exactly when the deleted chat was current |
| `ChatSession.DeleteChatIdempotent` | src/context/ChatContext.jsx:103-111 | deleting the same id twice leaves the state of deleting it once |
| `ChatSession.DeleteOnlyChatScenario` | src/context/ChatContext.jsx:103-111 | deleting the only chat while it is current leaves no chat, no current chat and an empty log |
| `ChatProvider.ChatProvider.DeleteChat` | src/context/ChatContext.jsx:103-111 | from a mirrored state, leaves the state `ChatSession.DeleteChat` gives, with the store mirroring it |
| `ChatSession.SendIgnoredIsNoOp` | src/context/ChatContext.jsx:117 | blank content (after trimming) or a send while loading changes nothing and posts nothing |
| `ChatSession.Title` | src/context/ChatContext.jsx:133-134 | the title has at most 33 characters and no newline; it is the first line when that has at most 30 characters, else the first 30 characters of the text and "..." |
| `ChatSession.TitleOfTrimmed` | src/context/ChatContext.jsx:126-134 | for non-blank content the title of the trimmed text has between 1 and 33 characters |
| `ChatSession.SendOpensChat` | src/context/ChatContext.jsx:131-145 | with no current chat a send puts a chat with the fresh id and the derived title in front of the registry, makes it current, and the log is the user message followed by the reply when there is one |
| `ChatSession.SendAppends` | src/context/ChatContext.jsx:146-149 | with a current chat a send keeps registry and current chat and appends the user message, then the reply when there is one |
| `ChatSession.RequestPayload` | src/context/ChatContext.jsx:145-161 | the request body is the prior log then the user message, as (role, content) pairs in order; for a new chat it is just the user message |
| `ChatSession.SendSettles` | src/context/ChatContext.jsx:147-192 | the log grows by 2 on a reply and by 1 otherwise and keeps its prefix; loading and streaming end cleared; the error is set exactly on failure; only the current chat's stored log is written |
| `ChatSession.ErrorTextEffect` | src/context/ChatContext.jsx:184-188 | an error exists exactly when there was no reply; it is never empty; the server's error wins, then the client's message, then the fixed fallbacks |
| `ChatSession.HelloScenario` | src/context/ChatContext.jsx:116-192 | sending "Hello" with no chat and the reply "Hi there" opens chat "Hello" with log [user "Hello", assistant "Hi there"] and no error |
| `ChatSession.RateLimitedScenario` | src/context/ChatContext.jsx:183-191 | a refusal "rate limited" leaves error "rate limited", only the user message in the log, and loading off |
| `ChatProvider.ChatProvider.SendMessage` | src/context/ChatContext.jsx:116-193 | from a mirrored state, returns the request body `ChatSession.Request` gives and the revealed buffers, leaves the state `ChatSession.SendMessage` gives, and keeps the store mirroring it |
| `ChatProvider.ChatProvider.AddUserMessage` | src/context/ChatContext.jsx:119-154 | the first step of `SendMessage`: returns the log to post (prior log and user message) and leaves the state with the user message added, error cleared, loading on |
| `ChatProvider.ChatProvider.Settle` | src/context/ChatContext.jsx:168-192 | the second step of `SendMessage`: appends the reply after revealing it, or sets the error, then stops loading and streaming |
| `ChatProvider.ChatProvider.SimulateTyping` | src/context/ChatContext.jsx:198-208 | the loop publishes exactly the buffers `ChatSession.Buffers` lists and ends with the streaming message equal to the text |
| `ChatSession.BuffersReveal` | src/context/ChatContext.jsx:198-208 | there is one buffer per word of `split(' ')`, one more than the spaces; each buffer is a prefix of the text and grows by a space and the next word; the last buffer equals the text |
| `ChatSession.BufferIsPrefix` | src/context/ChatContext.jsx:199-204 | every published buffer is a prefix of the reply |
| `ChatSession.BufferGrows` | src/context/ChatContext.jsx:202-203 | each buffer after the first is the previous one, a space and the next word |
| `Text.JoinSplit` | src/context/ChatContext.jsx:199-203 | joining the pieces of `split(sep)` with `sep` gives back the string |
| `Text.SplitJoin` | src/context/ChatContext.jsx:199-203 | splitting a join of separator-free words gives back the words |
| `Text.SplitCount` | src/context/ChatContext.jsx:199 | `split(sep)` yields one more piece than there are separators |
| `Text.JoinSnoc` | src/context/ChatContext.jsx:203 | joining one more word appends the separator and the word |
| `Text.JoinPrefix` | src/context/ChatContext.jsx:203-204 | the join of the first k words is a prefix of the join of all words |
| `Text.Split` | src/context/ChatContext.jsx:133 | there is always at least one piece and no piece contains the separator |
| `Text.FirstLine` | src/context/ChatContext.jsx:133 | the first line is a newline-free prefix of the text, followed by a newline whenever it is shorter than the text |
| `Text.FirstPieceIsPrefix` | src/context/ChatContext.jsx:133 | the first piece of a split is a prefix ending at the first separator |
| `Text.TrimStart` | src/context/ChatContext.jsx:117 | the result is a suffix, only whitespace was cut, and it does not start with whitespace |
| `Text.TrimEnd` | src/context/ChatContext.jsx:117 | the result is a prefix, only whitespace was cut, and it does not end with whitespace |
| `Text.TrimIsMiddle` | src/context/ChatContext.jsx:126 | trimming keeps a contiguous middle piece, removes only whitespace, and neither end of the result is whitespace |
| `Text.BlankIffAllWhitespace` | src/context/ChatContext.jsx:117 | content is blank exactly when all its characters are whitespace |
| `Text.TrimIdempotent` | src/context/ChatContext.jsx:126 | trimming a trimmed text changes nothing |
| `ChatSession.ClearChatEffect` | src/context/ChatContext.jsx:213-221 | the log is emptied, exactly the current chat's stored log is removed, registry and current chat stay, loading, error and streaming are cleared |
| `ChatProvider.ChatProvider.ClearChat` | src/context/ChatContext.jsx:213-221 | from a mirrored state, leaves the state `ChatSession.ClearChat` gives, with the store mirroring it |
| `ChatProvider.ChatProvider.ClearError` | src/context/ChatContext.jsx:226-228 | from a mirrored state, only the error changes, to none; the store is not touched |
| `ChatSession.ClearErrorEffect` | src/context/ChatContext.jsx:226-228 | on a mirrored state, `clearError` clears the error and changes nothing else, the store included |
| `ChatSession.ToggleThemeInvolution` | src/context/ChatContext.jsx:233-235 | toggling changes the theme, and toggling twice restores the mirrored state exactly |
| `ChatProvider.ChatProvider.ToggleTheme` | src/context/ChatContext.jsx:233-235 | from a mirrored state, leaves the state `ChatSession.ToggleTheme` gives, with the store mirroring it |
| `Seqs.Filter` | src/context/ChatContext.jsx:104 | the filtered list is no longer than the original and every element passes the test |
| `Seqs.FilterMultiplicity` | src/context/ChatContext.jsx:104 | every element that passes the test is kept exactly as often as it occurs; no other element is kept |
| `Seqs.FilterDropsOne` | src/components/SidebarSearch.jsx:49 | filtering one element out of a list without repeats removes exactly one entry |
| `Seqs.FilterMembership` | src/context/ChatContext.jsx:104 | an element is in the filtered list exactly when it was in the list and passes the test |
| `Seqs.FilterIsSubsequence` | src/context/ChatContext.jsx:104 | filtering keeps the relative order of the kept elements |
| `Seqs.FilterIdempotent` | src/context/ChatContext.jsx:104 | filtering twice with one test is filtering once |
| `Seqs.Take` | src/components/SidebarSearch.jsx:49 | `slice(0, n)` is a prefix of length min(n, length) |
| `SidebarSearch.LoadedHistory` | src/components/SidebarSearch.jsx:11-16 | the loaded history is the prefix of the stored one of length min(5, stored length) |
| `SidebarSearch.NewHistoryEffect` | src/components/SidebarSearch.jsx:49 | after saving, the term is first and nowhere else, and the rest is the old history with the term removed, cut so that there are min(5, 1 + its length) entries |
| `SidebarSearch.NewHistoryResave` | src/components/SidebarSearch.jsx:49 | re-saving a term already in a history of at most 5 distinct entries moves it to the front, keeps the length and evicts nothing |
| `SidebarSearch.NewHistoryKeepsAllWhenRoom` | src/components/SidebarSearch.jsx:49 | with fewer than 5 entries, saving keeps every old entry |
| `SidebarSearch.NewHistoryOfNewTerm` | src/components/SidebarSearch.jsx:49 | a term not yet in the history goes in front and the list is cut to 5 |
| `SidebarSearch.NewHistoryIdempotent` | src/components/SidebarSearch.jsx:49 | saving the same term twice in a row is saving it once |
| `SidebarSearch.NewHistoryNoDuplicates` | src/components/SidebarSearch.jsx:49 | a history without repeats stays without repeats |
| `SidebarSearch.SearchBox.constructor` | src/components/SidebarSearch.jsx:5-16 | the query starts empty and the history is the stored one cut to 5, without rewriting the store |
| `SidebarSearch.SearchBox.SaveSearchToHistory` | src/components/SidebarSearch.jsx:47-52 | a blank term changes nothing; otherwise the history becomes `NewHistory` and the store holds the same list |
| `SidebarSearch.SearchBox.HandleEnter` | src/components/SidebarSearch.jsx:59-64 | Enter saves the current query to the history and the store; a blank query changes neither |
| `SidebarSearch.SearchBox.ClearSearch` | src/components/SidebarSearch.jsx:42-45 | the query becomes empty and the empty string is reported |
| `SidebarSearch.SearchBox.HandleSearch` | src/components/SidebarSearch.jsx:38-40 | the typed value becomes the query |
| `SidebarSearch.SearchBox.DebounceElapsed` | src/components/SidebarSearch.jsx:19-25 | when the debounce timer fires the current query is reported |
| `SidebarSearch.SearchBox.HandleRecentClick` | src/components/SidebarSearch.jsx:54-57 | a clicked recent search becomes the query |
| `Sidebar.FilterChatsEffect` | src/components/Sidebar.jsx:34-50 | an empty query lists all chats; the list keeps registry order and each kept chat as often as it occurs; a title match is always listed; otherwise a chat is listed exactly when its stored log has a matching message, so never without a stored log |
| `Sidebar.TitleContainingQueryIsListed` | src/components/Sidebar.jsx:37-40 | a title that contains the query in the same case is listed, since lower-casing both keeps the match |
| `Text.Lower` | src/components/Sidebar.jsx:37 | lower-casing keeps the length, turns each capital A-Z into the matching small letter, leaves no capital letter and keeps every other character |
| `Text.LowerIdempotent` | src/components/Sidebar.jsx:37 | lower-casing twice is lower-casing once |
| `Text.LowerConcat` | src/components/Sidebar.jsx:37 | lower-casing distributes over concatenation |
| `Text.ContainsIffOccurs` | src/components/Sidebar.jsx:40 | `includes` holds exactly when the needle occurs at some position |
| `Text.ContainsLower` | src/components/Sidebar.jsx:40 | a case-sensitive match stays a match after lower-casing both sides |
| `Sidebar.Sidebar.constructor` | src/components/Sidebar.jsx:19-21 | no query, the confirmation closed, no chat pending, and the list shows every chat |
| `Sidebar.Sidebar.Render` | src/components/Sidebar.jsx:34-50 | the list is recomputed from the registry and stored logs exactly when the registry or the query changed since it was last computed, and kept as it was otherwise |
| `Sidebar.Sidebar.SetSearchQuery` | src/components/Sidebar.jsx:19 | the value reported by the search box becomes the query |
| `Sidebar.Sidebar.HandleDeleteChat` | src/components/Sidebar.jsx:71-75 | the chat becomes pending and the confirmation opens |
| `Sidebar.Sidebar.ConfirmDeleteChat` | src/components/Sidebar.jsx:77-83 | with a chat pending the provider deletes it, the confirmation closes and nothing is pending; with none pending nothing changes; the provider's store keeps mirroring its state |
| `Sidebar.Sidebar.CancelDeleteChat` | src/components/Sidebar.jsx:85-88 | the confirmation closes and nothing is pending; the provider is not touched |

## Left out

- The POST to `/api/chat` and the base-URL configuration: the backend's answer is the parameter `outcome` (reply, refusal, HTTP error, no response).
- The delays between revealed words (`setTimeout` with `Math.random()`) and the 300 ms search debounce: timing only. `SearchBox.DebounceElapsed` stands for the timer firing.
- Asynchronous interleaving: `sendMessage` is one atomic step. Switching chats while a send is in flight, stale closures over `messages` and the best-effort `isLoading` guard are not modelled.
- React's effect scheduling: the effects run after every operation (see above for why this gives the same store).
- `Date.now()` and `new Date()`: ids and times are parameters (`freshId`, `now`, `replyTime`). `createdAt` and `timestamp` are the millisecond reading rather than its ISO text. No freshness is assumed, so colliding ids are allowed.
- `localStorage` and JSON: the store is a record of typed values, so malformed or wrongly typed stored data is not modelled. A stored theme other than "light"/"dark" is not modelled either; the source would toggle it to "light".
- Empty chat ids: ids are non-empty strings, as `Date.now().toString()` makes them. An empty id written into storage by hand, which the source treats as no chat, is not modelled.
- `window.matchMedia` is the parameter `prefersDark`. The `dark` class on the document element is not modelled.
- `toLowerCase` lower-cases ASCII letters only, and string lengths count characters, not UTF-16 code units. The 30-character title cut can differ for characters outside the Basic Multilingual Plane.
- A successful response without a `message` field makes the source throw inside the typing loop and take the error path. In the model the reply is always a string.
- The `console.error` log of a failed send: diagnostic output only, with no effect on the state.
- `useChat` and its error outside a provider, the dropdown's focus state and outside-click handler, the sidebar's tab, window-size tracking, and `handleNewChat`/`handleChatClick`: the last two only call `createNewChat`/`switchChat` and close the sidebar on narrow windows, which is presentation. Rendering, animation, markdown, clipboard and authentication are not part of this model.
- Sidebar.Sidebar.Render: sees the store only after a whole operation. In the source, a send that opens a chat while a search query is set makes the list recompute (the registry changed) before the new chat's log is stored, and the list stays cached through the reply. So the source lists the new chat only if its title matches, while the model, rendering after the atomic send, also lists it when the user message or the reply matches (for example, the query "world" and the message "hello\nworld" with the title "hello"). The render between the two steps of a send is not modelled.
- Sidebar.Sidebar.Render: compares the memo's inputs by value, while React compares the registry by identity. The two differ only when `deleteChat` removes nothing: the source then builds a new, equal array and recomputes the list, and the model keeps the cached one.
