/** The chat session state of `ChatProvider` (src/context/ChatContext.jsx) as a
    value, with one function per operation giving the state after it. Each
    operation is taken as one atomic step that ends with the persistence
    effects having run; the backend reply is a parameter. */
module ChatSession {
  import opened Wrappers
  import opened Seqs
  import opened Text

  /** Chat ids come from `Date.now().toString()` and are never empty, so a
      present id is always truthy. */
  type ChatId = s: string | s != "" witness "0"

  datatype Role = User | Assistant

  /** A message of a chat log; `id` and `timestamp` are the clock reading
      (`Date.now()`) taken when it was created. */
  datatype Message = Message(id: nat, role: Role, content: string, timestamp: nat)

  /** An entry of the chat registry. */
  datatype Chat = Chat(id: ChatId, title: string, createdAt: nat)

  datatype Theme = Light | Dark

  /** One element of the request body `{ messages: [...] }`. */
  datatype ApiMessage = ApiMessage(role: Role, content: string)

  /** How the POST to `/api/chat` ended. An absent string field is written "",
      which JavaScript's `||` treats the same way.
      - Reply: a response whose body has `success` true and the reply `message`;
      - Refused: a response whose body has `success` false and maybe an `error`;
      - HttpError: a non-2xx response, with the body's `error` and the
        client's own error message;
      - NetworkError: no response at all, with the client's error message. */
  datatype Outcome =
    | Reply(message: string)
    | Refused(error: string)
    | HttpError(error: string, message: string)
    | NetworkError(message: string)

  /** The key-value store: `chats`, `currentChatId`, `messages_<id>` (the map
      `logs`, keyed by the chat id) and `theme`. A missing key is None or an
      absent map key. */
  datatype Store = Store(
    chats: Option<seq<Chat>>,
    currentChatId: Option<ChatId>,
    logs: map<ChatId, seq<Message>>,
    theme: Option<Theme>)

  /** The provider's state and the store it mirrors itself into. */
  datatype Session = Session(
    chats: seq<Chat>,
    currentChatId: Option<ChatId>,
    messages: seq<Message>,
    isLoading: bool,
    error: Option<string>,
    streamingMessage: string,
    theme: Theme,
    store: Store)

  const NewChatTitle: string := "New Chat"
  const TitleLimit: nat := 30
  const Ellipsis: string := "..."
  const RefusedFallback: string := "Failed to get AI response"
  const ErrorFallback: string := "An error occurred"

  /** JavaScript's `a || b` on strings. */
  function Or(a: string, b: string): string {
    if a != "" then a else b
  }

  /** The log stored under `messages_<id>`, or the empty log when there is none. */
  function StoredLog(store: Store, id: ChatId): seq<Message> {
    if id in store.logs then store.logs[id] else []
  }

  /** The store mirrors the state: the registry, the current id and the theme
      are stored as they are, and a non-empty log of a current chat is stored
      under that chat's key. */
  ghost predicate Synced(s: Session) {
    && s.store.chats == Some(s.chats)
    && s.store.currentChatId == s.currentChatId
    && s.store.theme == Some(s.theme)
    && (s.currentChatId.Some? && |s.messages| > 0 ==>
          s.currentChatId.value in s.store.logs && s.store.logs[s.currentChatId.value] == s.messages)
  }

  /** The persistence effects: write the theme, write the registry, write or
      remove the current id, and write the log under the current id when there
      is one and the log is not empty. */
  function Persisted(s: Session): (r: Session)
    ensures Synced(r)
    ensures Synced(s) ==> r == s
    ensures r == s.(store := r.store)
    ensures r.store.logs ==
              if s.currentChatId.Some? && |s.messages| > 0
              then s.store.logs[s.currentChatId.value := s.messages]
              else s.store.logs
  {
    var logs :=
      if s.currentChatId.Some? && |s.messages| > 0
      then s.store.logs[s.currentChatId.value := s.messages]
      else s.store.logs;
    s.(store := Store(Some(s.chats), s.currentChatId, logs, Some(s.theme)))
  }

  /** The state on mount: registry, current id and theme read from the store
      (the theme falls back to the platform preference), the current chat's log
      loaded, nothing loading, no error. */
  function Load(saved: Store, prefersDark: bool): Session {
    var messages := if saved.currentChatId.Some? then StoredLog(saved, saved.currentChatId.value) else [];
    var theme := saved.theme.GetOr(if prefersDark then Dark else Light);
    Persisted(Session(saved.chats.GetOr([]), saved.currentChatId, messages, false, None, "", theme, saved))
  }

  /** `createNewChat`: a chat titled "New Chat" in front of the registry,
      current, with an empty log. */
  function CreateNewChat(s: Session, id: ChatId, now: nat): Session {
    Persisted(s.(chats := [Chat(id, NewChatTitle, now)] + s.chats, currentChatId := Some(id),
                 messages := [], streamingMessage := "", error := None))
  }

  /** `switchChat`: make `id` current and load its stored log. */
  function SwitchChat(s: Session, id: ChatId): Session {
    Persisted(s.(currentChatId := Some(id), messages := StoredLog(s.store, id),
                 streamingMessage := "", error := None))
  }

  /** The registry without the chats whose id is `id`. */
  function WithoutChat(chats: seq<Chat>, id: ChatId): seq<Chat> {
    Filter(chats, (c: Chat) => c.id != id)
  }

  /** `deleteChat`: drop the chat from the registry and its log from the
      store; if it was current, there is no current chat any more. */
  function DeleteChat(s: Session, id: ChatId): Session {
    var pruned := s.(chats := WithoutChat(s.chats, id), store := s.store.(logs := s.store.logs - {id}));
    Persisted(if s.currentChatId == Some(id) then pruned.(currentChatId := None, messages := []) else pruned)
  }

  /** `clearChat`: empty the log and remove the current chat's stored log. */
  function ClearChat(s: Session): Session {
    var store := if s.currentChatId.Some? then s.store.(logs := s.store.logs - {s.currentChatId.value}) else s.store;
    Persisted(s.(messages := [], streamingMessage := "", error := None, isLoading := false, store := store))
  }

  /** `clearError`. */
  function ClearError(s: Session): Session {
    Persisted(s.(error := None))
  }

  /** The other theme. */
  function Flip(t: Theme): Theme {
    if t == Light then Dark else Light
  }

  /** `toggleTheme`. */
  function ToggleTheme(s: Session): Session {
    Persisted(s.(theme := Flip(s.theme)))
  }

  /** The title of a chat opened by its first message: the first line of the
      text, cut to 30 characters with "..." added when it was longer. */
  function Title(text: string): (t: string)
    ensures |t| <= TitleLimit + |Ellipsis|
    ensures '\n' !in t
    ensures |FirstLine(text)| <= TitleLimit ==> t == FirstLine(text)
    ensures |FirstLine(text)| > TitleLimit ==> t == text[..TitleLimit] + Ellipsis
  {
    var line := FirstLine(text);
    if |line| > TitleLimit then line[..TitleLimit] + Ellipsis else line
  }

  /** `sendMessage` ignores blank input and calls made while loading. */
  predicate Ignored(s: Session, content: string) {
    IsBlank(content) || s.isLoading
  }

  /** The message the user sends: the trimmed content. */
  function UserMessage(content: string, now: nat): Message {
    Message(now, User, Trim(content), now)
  }

  /** The message that holds the backend's reply. */
  function AssistantMessage(reply: string, now: nat): Message {
    Message(now, Assistant, reply, now)
  }

  /** The log the new user message is appended to: the current log, or none
      when a new chat is opened. */
  function PriorLog(s: Session): seq<Message> {
    if s.currentChatId.None? then [] else s.messages
  }

  /** `messagesForAPI.map(msg => ({ role, content }))`. */
  function ToApi(log: seq<Message>): (r: seq<ApiMessage>)
    ensures |r| == |log|
  {
    seq(|log|, i requires 0 <= i < |log| => ApiMessage(log[i].role, log[i].content))
  }

  /** The request body `sendMessage` posts, or None when it posts nothing. */
  function Request(s: Session, content: string, now: nat): Option<seq<ApiMessage>> {
    if Ignored(s, content) then None else Some(ToApi(PriorLog(s) + [UserMessage(content, now)]))
  }

  /** `err.response?.data?.error`: only a non-2xx response carries one. */
  function ResponseError(o: Outcome): string {
    if o.HttpError? then o.error else ""
  }

  /** `err.message`: a refusal throws `new Error(error || "Failed to get AI
      response")`; the HTTP client supplies the message otherwise. */
  function ExceptionMessage(o: Outcome): string {
    match o
    case Reply(_) => ""
    case Refused(e) => Or(e, RefusedFallback)
    case HttpError(_, m) => m
    case NetworkError(m) => m
  }

  /** The error a send leaves behind: none after a reply, otherwise
      `err.response?.data?.error || err.message || "An error occurred"`. */
  function ErrorText(o: Outcome): Option<string> {
    if o.Reply? then None else Some(Or(ResponseError(o), Or(ExceptionMessage(o), ErrorFallback)))
  }

  /** The first half of `sendMessage`: append the user message to the log,
      or open a new chat whose log is just that message when none is current;
      then clear the error and the streaming buffer and start loading. */
  function AddUserMessage(s: Session, content: string, freshId: ChatId, now: nat): Session {
    var user := UserMessage(content, now);
    var added :=
      if s.currentChatId.None?
      then s.(chats := [Chat(freshId, Title(user.content), now)] + s.chats,
              currentChatId := Some(freshId), messages := [user])
      else s.(messages := s.messages + [user]);
    added.(error := None, isLoading := true, streamingMessage := "")
  }

  /** The second half of `sendMessage`: append the reply on success, or set
      the error on failure; in both cases stop loading and streaming. */
  function Settle(s: Session, outcome: Outcome, replyTime: nat): Session {
    var answered :=
      if outcome.Reply?
      then s.(messages := s.messages + [AssistantMessage(outcome.message, replyTime)])
      else s.(error := ErrorText(outcome));
    Persisted(answered.(isLoading := false, streamingMessage := ""))
  }

  /** `sendMessage`, taken as one step. */
  function SendMessage(s: Session, content: string, freshId: ChatId, now: nat, outcome: Outcome, replyTime: nat): Session {
    if Ignored(s, content) then s
    else Settle(AddUserMessage(s, content, freshId, now), outcome, replyTime)
  }

  /** The buffers the typing simulation publishes for `text`: the first k
      words joined by single spaces, for k = 1, 2, ... */
  function Buffers(text: string): seq<string> {
    var words := Split(text, ' ');
    seq(|words|, k requires 0 <= k < |words| => Join(words[..k + 1], ' '))
  }

  // ---------------------------------------------------------------------------
  // Properties of the operations
  // ---------------------------------------------------------------------------

  /** Loading a mirrored state gives back its registry, current id, theme,
      non-empty log and store: persisting and reloading is a round trip. */
  lemma ReloadRoundTrip(s: Session, prefersDark: bool)
    requires Synced(s)
    ensures Load(s.store, prefersDark).chats == s.chats
    ensures Load(s.store, prefersDark).currentChatId == s.currentChatId
    ensures Load(s.store, prefersDark).theme == s.theme
    ensures Load(s.store, prefersDark).store == s.store
    ensures s.currentChatId.Some? && |s.messages| > 0 ==> Load(s.store, prefersDark).messages == s.messages
  {
    var t := Load(s.store, prefersDark);
    if s.currentChatId.Some? && s.currentChatId.value in s.store.logs && |t.messages| > 0 {
      assert s.store.logs[s.currentChatId.value := t.messages] == s.store.logs;
    }
  }

  /** Mounting never rewrites a stored log. */
  lemma LoadKeepsLogs(saved: Store, prefersDark: bool)
    ensures Load(saved, prefersDark).store.logs == saved.logs
    ensures !Load(saved, prefersDark).isLoading && Load(saved, prefersDark).error.None?
  {
    var t := Load(saved, prefersDark);
    if t.currentChatId.Some? && |t.messages| > 0 {
      assert saved.logs[t.currentChatId.value := t.messages] == saved.logs;
    }
  }

  /** `createNewChat` puts exactly one "New Chat" in front of the unchanged
      registry, makes it current with an empty log, clears streaming and
      error, and writes no log. */
  lemma CreateNewChatEffect(s: Session, id: ChatId, now: nat)
    ensures |CreateNewChat(s, id, now).chats| == |s.chats| + 1
    ensures CreateNewChat(s, id, now).chats[0] == Chat(id, NewChatTitle, now)
    ensures CreateNewChat(s, id, now).chats[1..] == s.chats
    ensures CreateNewChat(s, id, now).currentChatId == Some(id)
    ensures CreateNewChat(s, id, now).messages == []
    ensures CreateNewChat(s, id, now).streamingMessage == "" && CreateNewChat(s, id, now).error.None?
    ensures CreateNewChat(s, id, now).store.logs == s.store.logs
  {
    assert ([Chat(id, NewChatTitle, now)] + s.chats)[1..] == s.chats;
  }

  /** `switchChat` makes `id` current with its stored log (or none), clears
      streaming and error, and leaves the registry and the stored logs as
      they were. */
  lemma SwitchChatEffect(s: Session, id: ChatId)
    ensures SwitchChat(s, id).currentChatId == Some(id)
    ensures SwitchChat(s, id).messages == (if id in s.store.logs then s.store.logs[id] else [])
    ensures SwitchChat(s, id).chats == s.chats
    ensures SwitchChat(s, id).store.logs == s.store.logs
    ensures SwitchChat(s, id).streamingMessage == "" && SwitchChat(s, id).error.None?
  {
    if id in s.store.logs && |s.store.logs[id]| > 0 {
      assert s.store.logs[id := s.store.logs[id]] == s.store.logs;
    }
  }

  /** `deleteChat` removes every chat with the id and keeps the others in
      order, removes only that chat's stored log, and resets the current chat
      and log exactly when the deleted chat was current. */
  lemma DeleteChatEffect(s: Session, id: ChatId)
    requires Synced(s)
    ensures forall c :: c in DeleteChat(s, id).chats <==> c in s.chats && c.id != id
    ensures forall c :: multiset(DeleteChat(s, id).chats)[c] == if c.id != id then multiset(s.chats)[c] else 0
    ensures IsSubsequence(DeleteChat(s, id).chats, s.chats)
    ensures DeleteChat(s, id).store.logs == s.store.logs - {id}
    ensures s.currentChatId == Some(id) ==>
              DeleteChat(s, id).currentChatId.None? && DeleteChat(s, id).messages == []
    ensures s.currentChatId != Some(id) ==>
              DeleteChat(s, id).currentChatId == s.currentChatId && DeleteChat(s, id).messages == s.messages
  {
    var keep := (c: Chat) => c.id != id;
    forall c ensures c in DeleteChat(s, id).chats <==> c in s.chats && c.id != id {
      FilterMembership(s.chats, keep, c);
    }
    forall c ensures multiset(DeleteChat(s, id).chats)[c] == if c.id != id then multiset(s.chats)[c] else 0 {
      FilterMultiplicity(s.chats, keep, c);
    }
    FilterIsSubsequence(s.chats, keep);
    if s.currentChatId.Some? && s.currentChatId != Some(id) && |s.messages| > 0 {
      var cur := s.currentChatId.value;
      assert (s.store.logs - {id})[cur := s.messages] == s.store.logs - {id};
    }
  }

  /** Deleting the same chat twice leaves the state of deleting it once. */
  lemma DeleteChatIdempotent(s: Session, id: ChatId)
    ensures DeleteChat(DeleteChat(s, id), id) == DeleteChat(s, id)
  {
    var once := DeleteChat(s, id);
    FilterIdempotent(s.chats, (c: Chat) => c.id != id);
    assert once.currentChatId != Some(id);
    assert id !in once.store.logs;
    assert once.store.logs - {id} == once.store.logs;
  }

  /** `clearChat` empties the log, removes exactly the current chat's stored
      log, keeps the registry and the current chat, and settles the flags. */
  lemma ClearChatEffect(s: Session)
    ensures ClearChat(s).messages == []
    ensures ClearChat(s).store.logs ==
              if s.currentChatId.Some? then s.store.logs - {s.currentChatId.value} else s.store.logs
    ensures ClearChat(s).chats == s.chats && ClearChat(s).currentChatId == s.currentChatId
    ensures !ClearChat(s).isLoading && ClearChat(s).error.None? && ClearChat(s).streamingMessage == ""
  {
  }

  /** `clearError` on a mirrored state clears the error and changes nothing
      else, the store included. */
  lemma ClearErrorEffect(s: Session)
    requires Synced(s)
    ensures ClearError(s) == s.(error := None)
  {
  }

  /** Toggling the theme flips it, and toggling twice restores a mirrored
      state exactly. */
  lemma ToggleThemeInvolution(s: Session)
    requires Synced(s)
    ensures ToggleTheme(s).theme != s.theme
    ensures ToggleTheme(ToggleTheme(s)) == s
  {
  }

  /** The title has at most 33 characters, and a non-blank message never gets
      an empty title. */
  lemma TitleOfTrimmed(content: string)
    requires !IsBlank(content)
    ensures 1 <= |Title(Trim(content))| <= 33
  {
    TrimIsMiddle(content);
    var t := Trim(content);
    assert !IsWhitespace(t[0]);
  }

  /** The error left after a send: present exactly when there was no reply,
      never empty, the server's own error when it sent one, and otherwise
      the client's message or a fixed fallback. */
  lemma ErrorTextEffect(o: Outcome)
    ensures ErrorText(o).Some? <==> !o.Reply?
    ensures ErrorText(o).Some? ==> ErrorText(o).value != ""
    ensures o.Refused? ==> ErrorText(o) == Some(Or(o.error, RefusedFallback))
    ensures o.HttpError? && o.error != "" ==> ErrorText(o) == Some(o.error)
    ensures o.HttpError? && o.error == "" ==> ErrorText(o) == Some(Or(o.message, ErrorFallback))
    ensures o.NetworkError? ==> ErrorText(o) == Some(Or(o.message, ErrorFallback))
  {
  }

  /** A blank message, or a send while one is loading, changes nothing and
      posts nothing. */
  lemma SendIgnoredIsNoOp(s: Session, content: string, freshId: ChatId, now: nat, outcome: Outcome, replyTime: nat)
    requires IsBlank(content) || s.isLoading
    ensures SendMessage(s, content, freshId, now, outcome, replyTime) == s
    ensures Request(s, content, now).None?
  {
  }

  /** The request body is the prior log followed by the user message, as
      (role, content) pairs in log order; for a new chat it is the user
      message alone. */
  lemma RequestPayload(s: Session, content: string, now: nat)
    requires !Ignored(s, content)
    ensures Request(s, content, now).Some?
    ensures |Request(s, content, now).value| == |PriorLog(s)| + 1
    ensures forall i :: 0 <= i < |PriorLog(s)| ==>
              Request(s, content, now).value[i] == ApiMessage(PriorLog(s)[i].role, PriorLog(s)[i].content)
    ensures Request(s, content, now).value[|PriorLog(s)|] == ApiMessage(User, Trim(content))
    ensures s.currentChatId.None? ==> Request(s, content, now).value == [ApiMessage(User, Trim(content))]
  {
  }

  /** With no current chat, a send opens one in front of the registry,
      titled from the first line of the trimmed text, and the log is the user
      message followed by the reply when there is one. */
  lemma SendOpensChat(s: Session, content: string, freshId: ChatId, now: nat, outcome: Outcome, replyTime: nat)
    requires !Ignored(s, content) && s.currentChatId.None?
    ensures SendMessage(s, content, freshId, now, outcome, replyTime).chats ==
              [Chat(freshId, Title(Trim(content)), now)] + s.chats
    ensures SendMessage(s, content, freshId, now, outcome, replyTime).currentChatId == Some(freshId)
    ensures 1 <= |SendMessage(s, content, freshId, now, outcome, replyTime).chats[0].title| <= 33
    ensures SendMessage(s, content, freshId, now, outcome, replyTime).messages ==
              [UserMessage(content, now)] +
              (if outcome.Reply? then [AssistantMessage(outcome.message, replyTime)] else [])
  {
    TitleOfTrimmed(content);
  }

  /** With a current chat, a send keeps the registry and the current chat and
      appends the user message, then the reply when there is one. */
  lemma SendAppends(s: Session, content: string, freshId: ChatId, now: nat, outcome: Outcome, replyTime: nat)
    requires !Ignored(s, content) && s.currentChatId.Some?
    ensures SendMessage(s, content, freshId, now, outcome, replyTime).chats == s.chats
    ensures SendMessage(s, content, freshId, now, outcome, replyTime).currentChatId == s.currentChatId
    ensures SendMessage(s, content, freshId, now, outcome, replyTime).messages ==
              s.messages + [UserMessage(content, now)] +
              (if outcome.Reply? then [AssistantMessage(outcome.message, replyTime)] else [])
  {
  }

  /** After any send that was not ignored: the log grew by two on a reply and
      by one otherwise, keeping what was there; nothing is loading or
      streaming; the error is set exactly on failure; the log is stored under
      the (possibly new) current chat and no other stored log changes. */
  lemma SendSettles(s: Session, content: string, freshId: ChatId, now: nat, outcome: Outcome, replyTime: nat)
    requires !Ignored(s, content)
    ensures var r := SendMessage(s, content, freshId, now, outcome, replyTime);
      && |r.messages| == |PriorLog(s)| + (if outcome.Reply? then 2 else 1)
      && r.messages[..|PriorLog(s)|] == PriorLog(s)
      && !r.isLoading && r.streamingMessage == ""
      && (r.error.Some? <==> !outcome.Reply?)
      && r.error == ErrorText(outcome)
      && r.currentChatId.Some?
      && r.store.logs == s.store.logs[r.currentChatId.value := r.messages]
      && r.theme == s.theme
  {
    var r := SendMessage(s, content, freshId, now, outcome, replyTime);
    assert r.messages[..|PriorLog(s)|] == PriorLog(s);
  }

  /** The typing simulation publishes one buffer per word of
      `text.split(' ')` (one more than the spaces in `text`); each buffer is a
      prefix of `text`, grows from the previous one by a space and the next
      word, and the last buffer is `text` itself. */
  lemma BuffersReveal(text: string)
    ensures |Buffers(text)| == |Split(text, ' ')| == Count(text, ' ') + 1
    ensures forall k :: 0 <= k < |Buffers(text)| ==> Buffers(text)[k] <= text
    ensures Buffers(text)[0] == Split(text, ' ')[0]
    ensures forall k :: 0 < k < |Buffers(text)| ==>
              Buffers(text)[k] == Buffers(text)[k - 1] + " " + Split(text, ' ')[k]
    ensures Buffers(text)[|Buffers(text)| - 1] == text
  {
    var words := Split(text, ' ');
    SplitCount(text, ' ');
    JoinSplit(text, ' ');
    forall k | 0 <= k < |words| ensures Buffers(text)[k] <= text {
      BufferIsPrefix(text, k);
    }
    assert words[..1] == [words[0]];
    assert Buffers(text)[0] == Join(words[..1], ' ');
    forall k | 0 < k < |words|
      ensures Buffers(text)[k] == Buffers(text)[k - 1] + " " + words[k]
    {
      BufferGrows(text, k);
    }
    assert words[..|words|] == words;
  }

  /** Buffer `k` is a prefix of the text. */
  lemma BufferIsPrefix(text: string, k: nat)
    requires k < |Split(text, ' ')|
    ensures Buffers(text)[k] <= text
  {
    JoinSplit(text, ' ');
    JoinPrefix(Split(text, ' '), k + 1, ' ');
  }

  /** Buffer `k` is buffer `k - 1`, a space and word `k`. */
  lemma BufferGrows(text: string, k: nat)
    requires 0 < k < |Split(text, ' ')|
    ensures Buffers(text)[k] == Buffers(text)[k - 1] + " " + Split(text, ' ')[k]
  {
    var words := Split(text, ' ');
    assert words[..k + 1] == words[..k] + [words[k]];
    JoinSnoc(words[..k], words[k], ' ');
  }

  // ---------------------------------------------------------------------------
  // Worked scenarios
  // ---------------------------------------------------------------------------

  /** A fresh session with no chats, nothing current and a given theme. */
  function Fresh(theme: Theme): Session {
    Session([], None, [], false, None, "", theme, Store(Some([]), None, map[], Some(theme)))
  }

  /** "Hello" has no surrounding whitespace and no newline. */
  lemma HelloIsPlain()
    ensures Trim("Hello") == "Hello" && !IsBlank("Hello")
    ensures Title("Hello") == "Hello"
  {
    var hello := "Hello";
    assert !IsWhitespace(hello[0]) && !IsWhitespace(hello[4]);
    assert TrimStart(hello) == hello;
    assert TrimEnd(hello) == hello;
    assert forall i :: 0 <= i < |hello| ==> hello[i] != '\n';
    SplitAfterWord(hello, "", '\n');
    assert hello + "" == hello;
    assert Split("", '\n') == [""];
  }

  /** Sending "Hello" with nothing current and the reply "Hi there" opens one
      chat titled "Hello" whose log is the question and the answer. */
  lemma HelloScenario(theme: Theme, id: ChatId, now: nat, later: nat)
    ensures SendMessage(Fresh(theme), "Hello", id, now, Reply("Hi there"), later).chats == [Chat(id, "Hello", now)]
    ensures SendMessage(Fresh(theme), "Hello", id, now, Reply("Hi there"), later).messages ==
              [Message(now, User, "Hello", now), Message(later, Assistant, "Hi there", later)]
    ensures SendMessage(Fresh(theme), "Hello", id, now, Reply("Hi there"), later).error.None?
  {
    HelloIsPlain();
    SendOpensChat(Fresh(theme), "Hello", id, now, Reply("Hi there"), later);
    SendSettles(Fresh(theme), "Hello", id, now, Reply("Hi there"), later);
  }

  /** A refusal with the error "rate limited" leaves that error, the user
      message alone in the log, and nothing loading. */
  lemma RateLimitedScenario(theme: Theme, id: ChatId, now: nat, later: nat)
    ensures SendMessage(Fresh(theme), "Hello", id, now, Refused("rate limited"), later).error == Some("rate limited")
    ensures SendMessage(Fresh(theme), "Hello", id, now, Refused("rate limited"), later).messages ==
              [Message(now, User, "Hello", now)]
    ensures !SendMessage(Fresh(theme), "Hello", id, now, Refused("rate limited"), later).isLoading
  {
    HelloIsPlain();
    SendOpensChat(Fresh(theme), "Hello", id, now, Refused("rate limited"), later);
    SendSettles(Fresh(theme), "Hello", id, now, Refused("rate limited"), later);
  }

  /** Deleting the only chat, which is current, leaves no chat, nothing
      current and an empty log. */
  lemma DeleteOnlyChatScenario(s: Session, id: ChatId)
    requires |s.chats| == 1 && s.chats[0].id == id
    requires s.currentChatId == Some(id)
    ensures DeleteChat(s, id).chats == []
    ensures DeleteChat(s, id).currentChatId.None?
    ensures DeleteChat(s, id).messages == []
  {
  }
}
