/** The chat window component: the pending input, the visible messages and
    the typing flag, and the handlers that send a message, pick or delete a
    chat and insert an emoji. It reaches the root component's state (chats,
    active chat, storage) through `app`, as the component does through its
    props. */
module ChatBotApp {
  import opened ChatData
  import opened JsString
  import opened App

  /** What `sendMessage` holds across its `await`: the active chat id, the
      chat list as it was when the send began, the messages with the new
      prompt appended, and the (untrimmed) text sent in the request. */
  datatype Pending = Pending(chat: Id, chatsBefore: seq<Chat>, withPrompt: seq<Message>, prompt: string)

  class Session {
    const app: AppState
    var inputValue: string
    var messages: seq<Message>
    var isTyping: bool

    /** The initial `useState` values: the first chat's messages are shown. */
    constructor (app: AppState)
      ensures this.app == app && inputValue == "" && !isTyping
      ensures messages == if app.chats != [] then app.chats[0].messages else []
    {
      this.app := app;
      inputValue := "";
      messages := if |app.chats| > 0 then app.chats[0].messages else [];
      isTyping := false;
    }

    /** The effect run when `activeChat` or `chats` changes: show the active
        chat's messages from the list, or nothing. */
    method SyncMessagesFromChats()
      modifies this
      ensures messages == VisibleMessages(app.chats, app.activeChat)
      ensures inputValue == old(inputValue) && isTyping == old(isTyping)
    {
      var currentChat := match app.activeChat
        case None => None
        case Some(id) => FindChat(app.chats, id);
      messages := if currentChat.Some? then currentChat.value.messages else [];
    }

    /** The effect run when `activeChat` changes: when it is set, reload the
        messages from that chat's storage key, defaulting to none. */
    method ReloadMessagesFromStorage()
      modifies this
      ensures messages == if IsSet(app.activeChat) then StoredMessages(app.storage, app.activeChat.value) else old(messages)
      ensures inputValue == old(inputValue) && isTyping == old(isTyping)
    {
      if IsSet(app.activeChat) {
        messages := StoredMessages(app.storage, app.activeChat.value);
      }
    }

    /** Both effects, in declaration order, as they run after a change of
        active chat. When the store is valid the result is the active chat's
        messages whichever copy they were read from, so nothing of the
        previously active chat is left on screen. */
    method OnActiveChatChanged()
      modifies this
      ensures messages == if IsSet(app.activeChat) then StoredMessages(app.storage, app.activeChat.value)
                          else VisibleMessages(app.chats, app.activeChat)
      ensures app.Valid() ==> messages == VisibleMessages(app.chats, app.activeChat)
      ensures inputValue == old(inputValue) && isTyping == old(isTyping)
    {
      SyncMessagesFromChats();
      ReloadMessagesFromStorage();
    }

    /** handleEmojiSelect: the emoji's text is appended to the input. */
    method HandleEmojiSelect(native: string)
      modifies this
      ensures inputValue == old(inputValue) + native
      ensures messages == old(messages) && isTyping == old(isTyping)
    {
      inputValue := inputValue + native;
    }

    /** handleInputChange: the input takes the text field's value. */
    method HandleInputChange(value: string)
      modifies this
      ensures inputValue == value
      ensures messages == old(messages) && isTyping == old(isTyping)
    {
      inputValue := value;
    }

    /** handleSelectChat: the id becomes active unchecked, so the store stays
        valid exactly when the id is that of a listed chat. */
    method HandleSelectChat(id: Id)
      modifies app
      ensures app.activeChat == Some(id)
      ensures app.chats == old(app.chats) && app.storage == old(app.storage)
      ensures old(app.Valid()) ==> (app.Valid() <==> id in IdSet(app.chats))
    {
      app.activeChat := Some(id);
    }

    /** handleDeleteChat: the chats with this id leave the list and storage;
        if the deleted chat was active, the first remaining chat (or none)
        becomes active, otherwise the active chat stays. */
    method HandleDeleteChat(id: Id)
      modifies app
      ensures app.chats == RemoveChat(old(app.chats), id)
      ensures app.storage == old(app.storage)[ChatsKey := ChatList(app.chats)] - {id}
      ensures app.activeChat == ActiveAfterDelete(app.chats, old(app.activeChat), id)
      ensures old(app.Valid()) && id != ChatsKey ==> app.Valid()
    {
      var updatedChats := RemoveChat(app.chats, id);
      app.chats := updatedChats;
      app.storage := app.storage[ChatsKey := ChatList(updatedChats)];
      app.storage := app.storage - {id};
      if app.activeChat == Some(id) {
        var newActiveChat := if |updatedChats| > 0 then Some(updatedChats[0].id) else None;
        app.activeChat := newActiveChat;
      }
      if old(app.Valid()) && id != ChatsKey {
        RemoveKeepsIds(old(app.chats), id);
        MirrorsAfterRemove(old(app.storage), old(app.chats), id);
        DeleteKeepsActiveValid(old(app.chats), old(app.activeChat), id);
      }
    }

    /** sendMessage up to its `await`. Blank input changes nothing. With no
        active chat the input seeds a new chat and is cleared, and no request
        is made. Otherwise the prompt is appended to the shown messages, the
        active chat's messages are replaced in the list, both storage keys
        are written, the input is cleared and the typing flag is set; the
        result is what the reply phase needs. */
    method SubmitPrompt(newId: Id, displayId: string, timestamp: string) returns (pending: Option<Pending>)
      modifies this, app
      ensures AllWhitespace(old(inputValue)) ==> pending == None && unchanged(this) && unchanged(app)
      ensures !AllWhitespace(old(inputValue)) && !IsSet(old(app.activeChat)) ==>
        && pending == None
        && app.chats == [Chat(newId, displayId, SeedMessages(old(inputValue), timestamp))] + old(app.chats)
        && app.activeChat == Some(newId)
        && app.storage == old(app.storage)[ChatsKey := ChatList(app.chats)][newId := MessageList(app.chats[0].messages)]
        && inputValue == "" && messages == old(messages) && isTyping == old(isTyping)
      ensures !AllWhitespace(old(inputValue)) && IsSet(old(app.activeChat)) ==>
        && pending == Some(Pending(old(app.activeChat).value, old(app.chats),
                                   old(messages) + [Message(Prompt, old(inputValue), timestamp)], old(inputValue)))
        && messages == pending.value.withPrompt
        && app.chats == ReplaceMessages(old(app.chats), pending.value.chat, messages)
        && app.activeChat == old(app.activeChat)
        && app.storage == old(app.storage)[pending.value.chat := MessageList(messages)][ChatsKey := ChatList(app.chats)]
        && inputValue == "" && isTyping
      ensures old(app.Valid()) && (IsSet(old(app.activeChat)) || FreshId(old(app.chats), newId)) ==> app.Valid()
    {
      TrimEmptyIffBlank(inputValue);
      if Trim(inputValue) == "" {
        return None;
      }

      if !IsSet(app.activeChat) {
        NewChatFromInput(newId, displayId, timestamp);
        return None;
      }

      var p := AppendPrompt(timestamp);
      pending := Some(p);
    }

    /** The no-active-chat branch of sendMessage: the untrimmed input seeds a
        new chat through the root's createNewChat and is then cleared. */
    method NewChatFromInput(newId: Id, displayId: string, timestamp: string)
      modifies this, app
      ensures app.chats == [Chat(newId, displayId, SeedMessages(old(inputValue), timestamp))] + old(app.chats)
      ensures app.activeChat == Some(newId)
      ensures app.storage == old(app.storage)[ChatsKey := ChatList(app.chats)][newId := MessageList(app.chats[0].messages)]
      ensures inputValue == "" && messages == old(messages) && isTyping == old(isTyping)
      ensures old(app.Valid()) && FreshId(old(app.chats), newId) ==> app.Valid()
    {
      app.CreateNewChat(newId, displayId, inputValue, timestamp);
      inputValue := "";
    }

    /** The prompt phase of sendMessage once an active chat is known: the
        untrimmed input is appended as a prompt to the shown messages and
        written under the chat's key, the input is cleared, the chat's
        messages are replaced in the list, the list is written under
        "chats" and the typing flag is set. */
    method AppendPrompt(timestamp: string) returns (p: Pending)
      requires IsSet(app.activeChat)
      modifies this, app
      ensures p == Pending(old(app.activeChat).value, old(app.chats),
                           old(messages) + [Message(Prompt, old(inputValue), timestamp)], old(inputValue))
      ensures messages == p.withPrompt
      ensures app.chats == ReplaceMessages(old(app.chats), p.chat, messages)
      ensures app.activeChat == old(app.activeChat)
      ensures app.storage == old(app.storage)[p.chat := MessageList(messages)][ChatsKey := ChatList(app.chats)]
      ensures inputValue == "" && isTyping
      ensures old(app.Valid()) ==> app.Valid()
    {
      var activeChat := app.activeChat.value;
      var chats := app.chats;
      var newMessage := Message(Prompt, inputValue, timestamp);
      var updatedMessages := messages + [newMessage];
      messages := updatedMessages;
      app.storage := app.storage[activeChat := MessageList(updatedMessages)];
      var sent := inputValue;
      inputValue := "";

      var updatedChats := ReplaceMessages(chats, activeChat, updatedMessages);
      app.chats := updatedChats;
      app.storage := app.storage[ChatsKey := ChatList(updatedChats)];
      isTyping := true;

      p := Pending(activeChat, chats, updatedMessages, sent);
      if old(app.Valid()) {
        UpdateKeepsStore(old(app.storage), chats, activeChat, updatedMessages);
      }
    }

    /** sendMessage after its `await`, given the first choice's reply text:
        the trimmed reply is appended as a response, the chat list captured
        before the send is mapped again with the new messages, both storage
        keys are written and the typing flag is cleared. When the list has
        not changed since the prompt phase, mapping the captured list is the
        same as mapping the current one, and then the store stays valid. */
    method ReceiveReply(p: Pending, content: string, timestamp: string)
      modifies this, app
      ensures messages == p.withPrompt + [Message(Response, Trim(content), timestamp)]
      ensures app.chats == ReplaceMessages(p.chatsBefore, p.chat, messages)
      ensures app.storage == old(app.storage)[p.chat := MessageList(messages)][ChatsKey := ChatList(app.chats)]
      ensures !isTyping && inputValue == old(inputValue) && app.activeChat == old(app.activeChat)
      ensures old(app.chats) == ReplaceMessages(p.chatsBefore, p.chat, p.withPrompt) ==>
                app.chats == ReplaceMessages(old(app.chats), p.chat, messages)
      ensures (old(app.Valid()) && old(app.activeChat) == Some(p.chat)
               && old(app.chats) == ReplaceMessages(p.chatsBefore, p.chat, p.withPrompt)) ==> app.Valid()
    {
      ghost var chats0, storage0 := app.chats, app.storage;
      ghost var wasValid := app.Valid() && app.activeChat == Some(p.chat);
      var chatResponse := Trim(content);
      var newResponse := Message(Response, chatResponse, timestamp);
      var updatedMessagesWithResponse := p.withPrompt + [newResponse];
      messages := updatedMessagesWithResponse;
      app.storage := app.storage[p.chat := MessageList(updatedMessagesWithResponse)];
      isTyping := false;

      var updatedChatsWithResponse := ReplaceMessages(p.chatsBefore, p.chat, updatedMessagesWithResponse);
      app.chats := updatedChatsWithResponse;
      app.storage := app.storage[ChatsKey := ChatList(updatedChatsWithResponse)];
      ReplaceTwice(p.chatsBefore, p.chat, p.withPrompt, updatedMessagesWithResponse);
      if wasValid && chats0 == ReplaceMessages(p.chatsBefore, p.chat, p.withPrompt) {
        UpdateKeepsStore(storage0, chats0, p.chat, updatedMessagesWithResponse);
      }
    }

    /** sendMessage with its two phases run back to back; the result is the
        user text of the one request made, if any. After a successful reply
        the shown messages are the old ones plus the prompt and the response,
        in that order, and both storage keys hold them. */
    method SendMessage(newId: Id, displayId: string, promptTime: string, replyContent: string, replyTime: string)
      returns (request: Option<string>)
      modifies this, app
      ensures AllWhitespace(old(inputValue)) ==> request == None && unchanged(this) && unchanged(app)
      ensures !AllWhitespace(old(inputValue)) && !IsSet(old(app.activeChat)) ==>
        && request == None
        && app.chats == [Chat(newId, displayId, SeedMessages(old(inputValue), promptTime))] + old(app.chats)
        && app.activeChat == Some(newId)
        && app.storage == old(app.storage)[ChatsKey := ChatList(app.chats)][newId := MessageList(app.chats[0].messages)]
        && inputValue == "" && messages == old(messages) && isTyping == old(isTyping)
      ensures !AllWhitespace(old(inputValue)) && IsSet(old(app.activeChat)) ==>
        && request == Some(old(inputValue))
        && messages == old(messages) + [Message(Prompt, old(inputValue), promptTime),
                                        Message(Response, Trim(replyContent), replyTime)]
        && app.chats == ReplaceMessages(old(app.chats), old(app.activeChat).value, messages)
        && app.activeChat == old(app.activeChat)
        && app.storage == old(app.storage)[old(app.activeChat).value := MessageList(messages)][ChatsKey := ChatList(app.chats)]
        && inputValue == "" && !isTyping
      ensures old(app.Valid()) && (IsSet(old(app.activeChat)) || FreshId(old(app.chats), newId)) ==> app.Valid()
      ensures old(app.Valid()) && request.Some? ==> messages == VisibleMessages(app.chats, app.activeChat)
    {
      var pending := SubmitPrompt(newId, displayId, promptTime);
      if pending.None? {
        return None;
      }
      var p := pending.value;
      request := Some(p.prompt);
      ReceiveReply(p, replyContent, replyTime);
      RewriteBothKeys(old(app.storage), p.chat, p.withPrompt, ReplaceMessages(p.chatsBefore, p.chat, p.withPrompt),
                      messages, app.chats);
      if old(app.Valid()) {
        UpdateKeepsStore(old(app.storage), p.chatsBefore, p.chat, messages);
        VisibleAfterReplace(p.chatsBefore, p.chat, messages);
      }
    }
  }
}
