/** The chat list of the sidebar (src/components/Sidebar.jsx): the search
    filter over the registry and the stored logs, and the confirmation step
    in front of `deleteChat`. */
module Sidebar {
  import opened Wrappers
  import opened Seqs
  import opened Text
  import opened ChatSession
  import opened ChatProvider

  /** Some message of the log contains the (lower-cased) query, ignoring case. */
  predicate LogMentions(log: seq<Message>, lowerQuery: string) {
    exists i :: 0 <= i < |log| && Contains(Lower(log[i].content), lowerQuery)
  }

  /** The test `filteredChats` applies to each chat: the title matches, or else the chat has
      a stored log in which some message matches. */
  predicate ChatMatches(chat: Chat, logs: map<ChatId, seq<Message>>, lowerQuery: string) {
    if Contains(Lower(chat.title), lowerQuery) then true
    else if chat.id in logs then LogMentions(logs[chat.id], lowerQuery)
    else false
  }

  /** `filteredChats`: all chats for an empty query, otherwise the chats that
      match the lower-cased query. */
  function FilterChats(chats: seq<Chat>, logs: map<ChatId, seq<Message>>, query: string): seq<Chat> {
    if query == "" then chats
    else Filter(chats, (c: Chat) => ChatMatches(c, logs, Lower(query)))
  }

  /** An empty query lists every chat; otherwise the list keeps the order of
      the registry, always includes a chat whose title matches, and includes
      a chat whose title does not match exactly when its stored log has a
      matching message (so never when it has no stored log). */
  lemma FilterChatsEffect(chats: seq<Chat>, logs: map<ChatId, seq<Message>>, query: string)
    ensures query == "" ==> FilterChats(chats, logs, query) == chats
    ensures IsSubsequence(FilterChats(chats, logs, query), chats)
    ensures forall c :: multiset(FilterChats(chats, logs, query))[c] ==
              if query == "" || ChatMatches(c, logs, Lower(query)) then multiset(chats)[c] else 0
    ensures forall c :: c in chats && Contains(Lower(c.title), Lower(query)) ==> c in FilterChats(chats, logs, query)
    ensures query != "" ==> forall c :: c in chats && !Contains(Lower(c.title), Lower(query)) ==>
              (c in FilterChats(chats, logs, query) <==> c.id in logs && LogMentions(logs[c.id], Lower(query)))
    ensures query != "" ==> forall c :: c in chats && !Contains(Lower(c.title), Lower(query)) && c.id !in logs ==>
              c !in FilterChats(chats, logs, query)
  {
    if query == "" {
      SubsequenceReflexive(chats);
    } else {
      var keep := (c: Chat) => ChatMatches(c, logs, Lower(query));
      FilterIsSubsequence(chats, keep);
      forall c ensures c in FilterChats(chats, logs, query) <==> c in chats && keep(c) {
        FilterMembership(chats, keep, c);
      }
      forall c ensures multiset(FilterChats(chats, logs, query))[c] == if keep(c) then multiset(chats)[c] else 0 {
        FilterMultiplicity(chats, keep, c);
      }
    }
  }

  /** A title that contains the query as typed is found whatever the case. */
  lemma TitleContainingQueryIsListed(chats: seq<Chat>, logs: map<ChatId, seq<Message>>, query: string, c: Chat)
    requires c in chats && Contains(c.title, query)
    ensures c in FilterChats(chats, logs, query)
  {
    ContainsLower(c.title, query);
    FilterChatsEffect(chats, logs, query);
  }

  /** The sidebar's own state, over the provider it reads and calls.
      `filteredChats` is the memoised list, and `memoChats` and `memoQuery` are
      the registry and query it was last computed for. */
  class Sidebar {
    const provider: ChatProvider
    var searchQuery: string
    var isDeleteModalOpen: bool
    var chatToDelete: Option<ChatId>
    var filteredChats: seq<Chat>
    var memoChats: seq<Chat>
    var memoQuery: string

    /** The first render: no query, so every chat is listed. */
    constructor (provider: ChatProvider)
      ensures this.provider == provider
      ensures searchQuery == "" && !isDeleteModalOpen && chatToDelete.None?
      ensures filteredChats == provider.chats
      ensures memoChats == provider.chats && memoQuery == ""
    {
      this.provider := provider;
      searchQuery := "";
      isDeleteModalOpen := false;
      chatToDelete := None;
      filteredChats := provider.chats;
      memoChats := provider.chats;
      memoQuery := "";
    }

    /** A render: the list is recomputed from the registry and the stored
        logs when the registry or the query differ from those it was computed
        for, and kept as it is otherwise. */
    method Render()
      modifies this`filteredChats, this`memoChats, this`memoQuery
      ensures memoChats == provider.chats && memoQuery == searchQuery
      ensures old(memoChats) == provider.chats && old(memoQuery) == searchQuery ==>
                filteredChats == old(filteredChats)
      ensures old(memoChats) != provider.chats || old(memoQuery) != searchQuery ==>
                filteredChats == FilterChats(provider.chats, provider.storedLogs, searchQuery)
    {
      if memoChats != provider.chats || memoQuery != searchQuery {
        filteredChats := FilterChats(provider.chats, provider.storedLogs, searchQuery);
        memoChats := provider.chats;
        memoQuery := searchQuery;
      }
    }

    /** The `onSearch` callback handed to the search box. */
    method SetSearchQuery(query: string)
      modifies this`searchQuery
      ensures searchQuery == query
    {
      searchQuery := query;
    }

    /** `handleDeleteChat`: remember the chat and open the confirmation. */
    method HandleDeleteChat(chatId: ChatId)
      modifies this`chatToDelete, this`isDeleteModalOpen
      ensures chatToDelete == Some(chatId) && isDeleteModalOpen
    {
      chatToDelete := Some(chatId);
      isDeleteModalOpen := true;
    }

    /** `confirmDeleteChat`: with a chat pending, delete it, close the
        confirmation and forget the chat; with none pending, do nothing. */
    method ConfirmDeleteChat()
      requires provider.Valid()
      modifies this`chatToDelete, this`isDeleteModalOpen, provider
      ensures provider.Valid()
      ensures old(chatToDelete).Some? ==>
                && provider.State() == ChatSession.DeleteChat(old(provider.State()), old(chatToDelete).value)
                && !isDeleteModalOpen && chatToDelete.None?
      ensures old(chatToDelete).None? ==>
                && provider.State() == old(provider.State())
                && isDeleteModalOpen == old(isDeleteModalOpen) && chatToDelete.None?
    {
      if chatToDelete.Some? {
        provider.DeleteChat(chatToDelete.value);
        isDeleteModalOpen := false;
        chatToDelete := None;
      }
    }

    /** `cancelDeleteChat`: close the confirmation and forget the chat. */
    method CancelDeleteChat()
      modifies this`chatToDelete, this`isDeleteModalOpen
      ensures !isDeleteModalOpen && chatToDelete.None?
    {
      isDeleteModalOpen := false;
      chatToDelete := None;
    }
  }
}
