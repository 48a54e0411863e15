/** `ChatProvider` (src/context/ChatContext.jsx) as an object: its React state
    variables and the key-value store are fields, and each operation is a
    method that updates them in place. Every method is proved to leave the
    state that the matching function of `ChatSession` describes, so the
    properties proved there hold of the object. */
module ChatProvider {
  import opened Wrappers
  import opened Text
  import opened ChatSession

  class ChatProvider {
    // React state
    var chats: seq<Chat>
    var currentChatId: Option<ChatId>
    var messages: seq<Message>
    var isLoading: bool
    var error: Option<string>
    var streamingMessage: string
    var theme: Theme
    // The store: keys `chats`, `currentChatId`, `messages_<id>`, `theme`
    var storedChats: Option<seq<Chat>>
    var storedCurrentChatId: Option<ChatId>
    var storedLogs: map<ChatId, seq<Message>>
    var storedTheme: Option<Theme>

    /** The object's state as a `Session` value. */
    ghost function State(): Session
      reads this
    {
      Session(chats, currentChatId, messages, isLoading, error, streamingMessage, theme,
              Store(storedChats, storedCurrentChatId, storedLogs, storedTheme))
    }

    /** The store mirrors the state. */
    ghost predicate Valid()
      reads this
    {
      Synced(State())
    }

    /** Mounting the provider over a store: read the registry, the current id
        and the theme, load the current chat's log, run the effects. */
    constructor (saved: Store, prefersDark: bool)
      ensures State() == Load(saved, prefersDark)
      ensures Valid()
    {
      chats := saved.chats.GetOr([]);
      currentChatId := saved.currentChatId;
      messages := [];
      isLoading := false;
      error := None;
      streamingMessage := "";
      theme := saved.theme.GetOr(if prefersDark then Dark else Light);
      storedChats := saved.chats;
      storedCurrentChatId := saved.currentChatId;
      storedLogs := saved.logs;
      storedTheme := saved.theme;
      new;
      if currentChatId.Some? && currentChatId.value in storedLogs {
        messages := storedLogs[currentChatId.value];
      }
      RunEffects();
    }

    /** The persistence effects: store the theme, the registry and the
        current id, and the log of the current chat when it is not empty. */
    method RunEffects()
      modifies this
      ensures State() == Persisted(old(State()))
    {
      storedTheme := Some(theme);
      storedChats := Some(chats);
      storedCurrentChatId := currentChatId;
      if currentChatId.Some? && |messages| > 0 {
        storedLogs := storedLogs[currentChatId.value := messages];
      }
    }

    /** `createNewChat`. */
    method CreateNewChat(newChatId: ChatId, now: nat)
      requires Valid()
      modifies this
      ensures State() == ChatSession.CreateNewChat(old(State()), newChatId, now)
      ensures Valid()
    {
      chats := [Chat(newChatId, NewChatTitle, now)] + chats;
      currentChatId := Some(newChatId);
      messages := [];
      streamingMessage := "";
      error := None;
      RunEffects();
    }

    /** `switchChat`. */
    method SwitchChat(chatId: ChatId)
      requires Valid()
      modifies this
      ensures State() == ChatSession.SwitchChat(old(State()), chatId)
      ensures Valid()
    {
      currentChatId := Some(chatId);
      messages := if chatId in storedLogs then storedLogs[chatId] else [];
      streamingMessage := "";
      error := None;
      RunEffects();
    }

    /** `deleteChat`. */
    method DeleteChat(chatId: ChatId)
      requires Valid()
      modifies this
      ensures State() == ChatSession.DeleteChat(old(State()), chatId)
      ensures Valid()
    {
      chats := WithoutChat(chats, chatId);
      storedLogs := storedLogs - {chatId};
      if currentChatId == Some(chatId) {
        currentChatId := None;
        messages := [];
      }
      RunEffects();
    }

    /** `sendMessage`, with the backend's answer given as `outcome`. Returns
        the request body it posts (None when the call is ignored) and the
        buffers the typing simulation publishes. */
    method SendMessage(content: string, freshId: ChatId, now: nat, outcome: Outcome, replyTime: nat)
      returns (request: Option<seq<ApiMessage>>, published: seq<string>)
      requires Valid()
      modifies this
      ensures request == Request(old(State()), content, now)
      ensures published == if request.Some? && outcome.Reply? then Buffers(outcome.message) else []
      ensures State() == ChatSession.SendMessage(old(State()), content, freshId, now, outcome, replyTime)
      ensures Valid()
    {
      if IsBlank(content) || isLoading {
        request, published := None, [];
        return;
      }
      var messagesForApi := AddUserMessage(content, freshId, now);
      request := Some(ToApi(messagesForApi));
      published := Settle(outcome, replyTime);
    }

    /** The first step of `sendMessage`: add the user message, opening a chat
        when none is current, and start loading. Returns the log to post. */
    method AddUserMessage(content: string, freshId: ChatId, now: nat) returns (messagesForApi: seq<Message>)
      modifies this
      ensures messagesForApi == PriorLog(old(State())) + [UserMessage(content, now)]
      ensures State() == ChatSession.AddUserMessage(old(State()), content, freshId, now)
    {
      var userMessage := UserMessage(content, now);
      if currentChatId.None? {
        chats := [Chat(freshId, Title(userMessage.content), now)] + chats;
        currentChatId := Some(freshId);
        messages := [userMessage];
        messagesForApi := [userMessage];
      } else {
        messagesForApi := messages + [userMessage];
        messages := messages + [userMessage];
      }
      error := None;
      isLoading := true;
      streamingMessage := "";
    }

    /** The second step of `sendMessage`, once the backend has answered:
        reveal and append the reply, or set the error; then stop loading.
        Returns the buffers revealed. */
    method Settle(outcome: Outcome, replyTime: nat) returns (published: seq<string>)
      modifies this
      ensures published == if outcome.Reply? then Buffers(outcome.message) else []
      ensures State() == ChatSession.Settle(old(State()), outcome, replyTime)
    {
      published := [];
      if outcome.Reply? {
        published := SimulateTyping(outcome.message);
        messages := messages + [AssistantMessage(outcome.message, replyTime)];
        streamingMessage := "";
      } else {
        error := ErrorText(outcome);
        streamingMessage := "";
      }
      isLoading := false;
      RunEffects();
    }

    /** `simulateTyping`: reveal `text` word by word, publishing each growing
        buffer as the streaming message. */
    method SimulateTyping(text: string) returns (published: seq<string>)
      modifies this`streamingMessage
      ensures published == Buffers(text)
      ensures streamingMessage == text
    {
      BuffersReveal(text);
      var words := Split(text, ' ');
      var currentText := "";
      published := [];
      for i := 0 to |words|
        invariant |published| == i
        invariant i == 0 ==> currentText == ""
        invariant i > 0 ==> currentText == Buffers(text)[i - 1] && streamingMessage == currentText
        invariant forall k :: 0 <= k < i ==> published[k] == Buffers(text)[k]
      {
        assert i > 0 ==> Buffers(text)[i] == Buffers(text)[i - 1] + " " + words[i];
        currentText := currentText + (if i > 0 then " " else "") + words[i];
        streamingMessage := currentText;
        published := published + [currentText];
      }
    }

    /** `clearChat`. */
    method ClearChat()
      requires Valid()
      modifies this
      ensures State() == ChatSession.ClearChat(old(State()))
      ensures Valid()
    {
      messages := [];
      streamingMessage := "";
      error := None;
      isLoading := false;
      if currentChatId.Some? {
        storedLogs := storedLogs - {currentChatId.value};
      }
      RunEffects();
    }

    /** `clearError`: only the error changes; the store is not touched. */
    method ClearError()
      requires Valid()
      modifies this
      ensures State() == ChatSession.ClearError(old(State()))
      ensures State() == old(State()).(error := None)
      ensures Valid()
    {
      ClearErrorEffect(State());
      error := None;
      RunEffects();
    }

    /** `toggleTheme`. */
    method ToggleTheme()
      requires Valid()
      modifies this
      ensures State() == ChatSession.ToggleTheme(old(State()))
      ensures Valid()
    {
      theme := if theme == Light then Dark else Light;
      RunEffects();
    }
  }
}
