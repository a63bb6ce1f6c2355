/** The root component: it owns the chat list and the active chat id, and it
    is the only place a chat is created. The browser's key/value storage is
    kept here too, as the `storage` field every handler writes through. */
module App {
  import opened ChatData

  class AppState {
    /** `chats`, newest first. */
    var chats: seq<Chat>
    /** `activeChat`: null or a chat id. */
    var activeChat: Option<Id>
    /** localStorage, keyed by "chats" and by chat id. */
    var storage: Storage

    /** The store's invariant: ids are well formed, the active chat is null
        or in the list, and storage mirrors the list. */
    ghost predicate Valid()
      reads this
    {
      WellFormedIds(chats) && ActiveValid(chats, activeChat) && Mirrors(storage, chats)
    }

    /** The initial `useState` values, over whatever storage the browser has. */
    constructor (storage: Storage)
      ensures chats == [] && activeChat == None && this.storage == storage
    {
      chats := [];
      activeChat := None;
      this.storage := storage;
    }

    /** The mount effect: load the stored chat list and make its first chat
        active; an empty list leaves the active chat as it was. */
    method LoadStoredChats()
      modifies this
      ensures storage == old(storage)
      ensures chats == StoredChats(storage)
      ensures activeChat == if chats != [] then Some(chats[0].id) else old(activeChat)
      ensures old(activeChat) == None && WellFormedStorage(storage) ==> Valid()
    {
      var storedChats := StoredChats(storage);
      chats := storedChats;
      if |storedChats| > 0 {
        var lastChat := storedChats[0];
        activeChat := Some(lastChat.id);
      }
    }

    /** createNewChat: the new chat goes first, holding one prompt when
        `initialMessage` is non-empty; both the list and the new chat's
        messages are written to storage, and the new chat becomes active. */
    method CreateNewChat(newId: Id, displayId: string, initialMessage: string, timestamp: string)
      modifies this
      ensures chats == [Chat(newId, displayId, SeedMessages(initialMessage, timestamp))] + old(chats)
      ensures activeChat == Some(newId)
      ensures storage == old(storage)[ChatsKey := ChatList(chats)][newId := MessageList(chats[0].messages)]
      ensures old(Valid()) && FreshId(old(chats), newId) ==> Valid()
    {
      var newChat := Chat(newId, displayId, SeedMessages(initialMessage, timestamp));
      var updatedChats := [newChat] + chats;
      chats := updatedChats;
      storage := storage[ChatsKey := ChatList(updatedChats)];
      activeChat := Some(newChat.id);
      storage := storage[newChat.id := MessageList(newChat.messages)];
      if old(Valid()) && FreshId(old(chats), newId) {
        PrependKeepsValid(old(chats), old(storage), newChat);
      }
    }

    /** handleStartChat: a chat is created only when there is none yet. */
    method HandleStartChat(newId: Id, displayId: string)
      modifies this
      ensures old(chats) == [] ==>
        && chats == [Chat(newId, displayId, [])]
        && activeChat == Some(newId)
        && storage == old(storage)[ChatsKey := ChatList(chats)][newId := MessageList([])]
      ensures old(chats) != [] ==> chats == old(chats) && activeChat == old(activeChat) && storage == old(storage)
      ensures old(Valid()) && FreshId(old(chats), newId) ==> Valid()
    {
      if |chats| == 0 {
        CreateNewChat(newId, displayId, "", "");
      }
    }
  }

  /** Prepending a chat with a fresh id and writing both keys keeps the
      store's invariant. */
  lemma PrependKeepsValid(chats: seq<Chat>, storage: Storage, newChat: Chat)
    requires WellFormedIds(chats) && Mirrors(storage, chats) && FreshId(chats, newChat.id)
    ensures WellFormedIds([newChat] + chats)
    ensures Mirrors(storage[ChatsKey := ChatList([newChat] + chats)][newChat.id := MessageList(newChat.messages)], [newChat] + chats)
  {
    var r := [newChat] + chats;
    var s := storage[ChatsKey := ChatList(r)][newChat.id := MessageList(newChat.messages)];
    IdSetCons(r);
    assert r[0] == newChat && r[1..] == chats;
    forall i, j | 0 <= i < j < |r| ensures r[i].id != r[j].id {
      assert r[j] == chats[j - 1];
      if i > 0 {
        assert r[i] == chats[i - 1];
      }
    }
    assert StoredChats(s) == r;
    forall c | c in r ensures StoredMessages(s, c.id) == c.messages {
      if c != newChat {
        assert c in chats;
        assert StoredMessages(s, c.id) == StoredMessages(storage, c.id);
      }
    }
  }
}
