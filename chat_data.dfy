/** The records the chat UI keeps (messages, chats, what it writes to the
    browser's key/value storage) and the pure list transformations its
    handlers are built from: prepend, `chats.map` replacing one chat's
    messages, `chats.filter` by id and `chats.find` by id. */
module ChatData {

  datatype Option<+T> = None | Some(value: T)

  /** A chat id: the string uuidv4 produced. */
  type Id = string

  /** The storage key under which the whole chat list is kept. */
  const ChatsKey: string := "chats"

  /** A message's `type` field: "prompt" for the user, "response" for the
      assistant. */
  datatype MessageType = Prompt | Response

  /** `{ type, text, timestamp }`; the timestamp is an opaque display string. */
  datatype Message = Message(kind: MessageType, text: string, timestamp: string)

  /** `{ id, displayId, messages }`; displayId is the date/time label. */
  datatype Chat = Chat(id: Id, displayId: string, messages: seq<Message>)

  /** What a storage key holds once parsed: the "chats" key holds the chat
      list, every chat id holds that chat's message list. */
  datatype Stored = ChatList(chats: seq<Chat>) | MessageList(msgs: seq<Message>)

  type Storage = map<string, Stored>

  // ---------------------------------------------------------------------
  // Ids and the invariants on them

  function IdSet(chats: seq<Chat>): set<Id> {
    set i | 0 <= i < |chats| :: chats[i].id
  }

  /** The ids of a concatenation are the ids of its parts. */
  lemma IdSetConcat(a: seq<Chat>, b: seq<Chat>)
    ensures IdSet(a + b) == IdSet(a) + IdSet(b)
  {
    forall x | x in IdSet(a + b) ensures x in IdSet(a) + IdSet(b) {
      var i :| 0 <= i < |a + b| && (a + b)[i].id == x;
      if i < |a| {
        assert a[i] == (a + b)[i];
      } else {
        assert b[i - |a|] == (a + b)[i];
      }
    }
    forall x | x in IdSet(a) ensures x in IdSet(a + b) {
      var i :| 0 <= i < |a| && a[i].id == x;
      assert (a + b)[i] == a[i];
    }
    forall x | x in IdSet(b) ensures x in IdSet(a + b) {
      var i :| 0 <= i < |b| && b[i].id == x;
      assert (a + b)[i + |a|] == b[i];
    }
  }

  /** The ids of a non-empty list are its head's id and the ids of its tail. */
  lemma IdSetCons(chats: seq<Chat>)
    requires chats != []
    ensures IdSet(chats) == {chats[0].id} + IdSet(chats[1..])
  {
    assert chats == [chats[0]] + chats[1..];
    IdSetConcat([chats[0]], chats[1..]);
    assert IdSet([chats[0]]) == {chats[0].id};
  }

  /** No two chats share an id. */
  predicate UniqueIds(chats: seq<Chat>) {
    forall i, j :: 0 <= i < j < |chats| ==> chats[i].id != chats[j].id
  }

  /** Ids are unique, non-empty (so a chosen id is truthy) and never the
      storage key of the chat list itself. */
  predicate WellFormedIds(chats: seq<Chat>) {
    UniqueIds(chats) && "" !in IdSet(chats) && ChatsKey !in IdSet(chats)
  }

  /** What uuidv4 guarantees of a new id with respect to the current list. */
  predicate FreshId(chats: seq<Chat>, id: Id) {
    id != "" && id != ChatsKey && id !in IdSet(chats)
  }

  /** The active chat is null or the id of some chat in the list. */
  predicate ActiveValid(chats: seq<Chat>, active: Option<Id>) {
    active.None? || active.value in IdSet(chats)
  }

  /** JavaScript truthiness of `activeChat`: null and "" are falsy. */
  predicate IsSet(active: Option<Id>) {
    active.Some? && active.value != ""
  }

  /** On well-formed ids, a truthiness test of the active chat is the same
      as a null test, because "" is never a chat id. */
  lemma SetIffSome(chats: seq<Chat>, active: Option<Id>)
    requires WellFormedIds(chats) && ActiveValid(chats, active)
    ensures IsSet(active) <==> active.Some?
  {
  }

  // ---------------------------------------------------------------------
  // Building a new chat

  /** `initialMessage ? [{ type: "prompt", text: initialMessage, ... }] : []`:
      a non-empty string seeds exactly one prompt carrying it, "" seeds none. */
  function SeedMessages(initialMessage: string, timestamp: string): (r: seq<Message>)
    ensures |r| == (if initialMessage == "" then 0 else 1)
    ensures forall m | m in r :: m.kind == Prompt && m.text == initialMessage && m.timestamp == timestamp
  {
    if initialMessage != "" then [Message(Prompt, initialMessage, timestamp)] else []
  }

  // ---------------------------------------------------------------------
  // chats.map((chat) => chat.id === id ? { ...chat, messages: msgs } : chat)

  /** Replaces the messages of every chat whose id is `id` and touches no
      other field and no other chat; length and order are kept. */
  function ReplaceMessages(chats: seq<Chat>, id: Id, msgs: seq<Message>): (r: seq<Chat>)
    ensures |r| == |chats|
    ensures forall i :: 0 <= i < |chats| ==> r[i].id == chats[i].id && r[i].displayId == chats[i].displayId
    ensures forall i :: 0 <= i < |chats| ==> r[i].messages == if chats[i].id == id then msgs else chats[i].messages
  {
    if chats == [] then []
    else
      var head := if chats[0].id == id then chats[0].(messages := msgs) else chats[0];
      [head] + ReplaceMessages(chats[1..], id, msgs)
  }

  /** Replacing keeps ids unique. */
  lemma ReplaceKeepsUnique(chats: seq<Chat>, id: Id, msgs: seq<Message>)
    requires UniqueIds(chats)
    ensures UniqueIds(ReplaceMessages(chats, id, msgs))
  {
    var r := ReplaceMessages(chats, id, msgs);
    forall i, j | 0 <= i < j < |r| ensures r[i].id != r[j].id {
      assert r[i].id == chats[i].id && r[j].id == chats[j].id;
    }
  }

  /** Replacing keeps the set of ids and so their well-formedness. */
  lemma {:induction false} ReplaceKeepsIds(chats: seq<Chat>, id: Id, msgs: seq<Message>)
    ensures IdSet(ReplaceMessages(chats, id, msgs)) == IdSet(chats)
    ensures WellFormedIds(chats) ==> WellFormedIds(ReplaceMessages(chats, id, msgs))
  {
    if chats != [] {
      ReplaceKeepsIds(chats[1..], id, msgs);
      IdSetCons(chats);
      IdSetCons(ReplaceMessages(chats, id, msgs));
    }
    if UniqueIds(chats) {
      ReplaceKeepsUnique(chats, id, msgs);
    }
  }

  /** A second replacement of the same chat overrides the first: mapping the
      list captured before the first update gives the same list as mapping
      the updated one. */
  lemma {:induction false} ReplaceTwice(chats: seq<Chat>, id: Id, first: seq<Message>, second: seq<Message>)
    ensures ReplaceMessages(ReplaceMessages(chats, id, first), id, second) == ReplaceMessages(chats, id, second)
  {
    if chats != [] {
      ReplaceTwice(chats[1..], id, first, second);
    }
  }

  // ---------------------------------------------------------------------
  // chats.filter((chat) => chat.id !== id)

  /** The list without the chats whose id is `id`: it never grows and no
      chat left in it has the id. */
  function RemoveChat(chats: seq<Chat>, id: Id): (r: seq<Chat>)
    ensures |r| <= |chats|
    ensures forall i :: 0 <= i < |r| ==> r[i].id != id
  {
    if chats == [] then []
    else (if chats[0].id == id then [] else [chats[0]]) + RemoveChat(chats[1..], id)
  }

  /** A chat is kept exactly when it was listed and its id is not `id`. */
  lemma {:induction false} RemoveChatMembers(chats: seq<Chat>, id: Id)
    ensures forall c :: c in RemoveChat(chats, id) <==> c in chats && c.id != id
  {
    if chats != [] {
      RemoveChatMembers(chats[1..], id);
      var head := if chats[0].id == id then [] else [chats[0]];
      assert RemoveChat(chats, id) == head + RemoveChat(chats[1..], id);
      assert chats == [chats[0]] + chats[1..];
    }
  }

  /** Filtering distributes over concatenation, so the kept chats stay in
      their original order. */
  lemma {:induction false} RemoveConcat(a: seq<Chat>, b: seq<Chat>, id: Id)
    ensures RemoveChat(a + b, id) == RemoveChat(a, id) + RemoveChat(b, id)
  {
    if a == [] {
      assert a + b == b;
    } else {
      var ab := a + b;
      assert ab[0] == a[0] && ab[1..] == a[1..] + b;
      RemoveConcat(a[1..], b, id);
      var x, y := RemoveChat(a[1..], id), RemoveChat(b, id);
      if a[0].id == id {
        assert RemoveChat(ab, id) == RemoveChat(a[1..] + b, id);
        assert RemoveChat(a, id) == x;
      } else {
        assert RemoveChat(ab, id) == [a[0]] + (x + y);
        assert RemoveChat(a, id) == [a[0]] + x;
        assert [a[0]] + (x + y) == ([a[0]] + x) + y;
      }
    }
  }

  /** Removing an id that no chat has changes nothing. */
  lemma {:induction false} RemoveAbsent(chats: seq<Chat>, id: Id)
    requires id !in IdSet(chats)
    ensures RemoveChat(chats, id) == chats
  {
    if chats != [] {
      assert IdSet(chats[1..]) <= IdSet(chats);
      RemoveAbsent(chats[1..], id);
    }
  }

  /** The tail of a list with unique ids has unique ids and lacks the head's id. */
  lemma UniqueTail(chats: seq<Chat>)
    requires UniqueIds(chats) && chats != []
    ensures UniqueIds(chats[1..]) && chats[0].id !in IdSet(chats[1..])
  {
    forall i, j | 0 <= i < j < |chats| - 1 ensures chats[1..][i].id != chats[1..][j].id {
      assert chats[1..][i] == chats[i + 1] && chats[1..][j] == chats[j + 1];
    }
    forall c | c in chats[1..] ensures c.id != chats[0].id {
      var i :| 0 <= i < |chats| - 1 && chats[1..][i] == c;
      assert c == chats[i + 1];
    }
  }

  /** With unique ids, deleting the chat at position k is splicing it out:
      the chats before it and after it keep their order. */
  lemma {:induction false} RemoveUniqueIsSplice(chats: seq<Chat>, k: nat)
    requires UniqueIds(chats) && k < |chats|
    ensures RemoveChat(chats, chats[k].id) == chats[..k] + chats[k + 1..]
  {
    var id := chats[k].id;
    UniqueTail(chats);
    if k == 0 {
      assert RemoveChat(chats, id) == RemoveChat(chats[1..], id);
      RemoveAbsent(chats[1..], id);
    } else {
      var tail := chats[1..];
      assert tail[k - 1] == chats[k];
      RemoveUniqueIsSplice(tail, k - 1);
      assert RemoveChat(chats, id) == [chats[0]] + RemoveChat(tail, id) by {
        assert chats[0].id != id;
      }
      assert [chats[0]] + (tail[..k - 1] + tail[k..]) == chats[..k] + chats[k + 1..] by {
        assert chats[..k] == [chats[0]] + tail[..k - 1];
        assert chats[k + 1..] == tail[k..];
      }
    }
  }

  /** Filtering keeps the ids well formed. */
  lemma {:induction false} RemoveKeepsIds(chats: seq<Chat>, id: Id)
    ensures IdSet(RemoveChat(chats, id)) == IdSet(chats) - {id}
    ensures WellFormedIds(chats) ==> WellFormedIds(RemoveChat(chats, id))
  {
    if chats != [] {
      RemoveKeepsIds(chats[1..], id);
      IdSetCons(chats);
      var head := if chats[0].id == id then [] else [chats[0]];
      assert RemoveChat(chats, id) == head + RemoveChat(chats[1..], id);
      IdSetConcat(head, RemoveChat(chats[1..], id));
      assert IdSet(head) == if chats[0].id == id then {} else {chats[0].id};
      if WellFormedIds(chats) {
        UniqueTail(chats);
        var rest := RemoveChat(chats[1..], id);
        RemoveChatMembers(chats[1..], id);
        assert UniqueIds(head + rest) by {
          forall i, j | 0 <= i < j < |head + rest| ensures (head + rest)[i].id != (head + rest)[j].id {
            if i < |head| {
              assert (head + rest)[j] == rest[j - |head|];
              assert (head + rest)[j] in chats[1..];
            }
          }
        }
      }
    }
  }

  /** The active chat after deleting `id`, given the chats that remain: the
      first remaining chat (or none) when the deleted chat was active, the
      same chat otherwise. */
  function ActiveAfterDelete(remaining: seq<Chat>, active: Option<Id>, id: Id): (r: Option<Id>)
    ensures active != Some(id) ==> r == active
    ensures active == Some(id) ==> (r.None? <==> remaining == [])
    ensures active == Some(id) && r.Some? ==> r.value in IdSet(remaining) && r.value == remaining[0].id
  {
    if active == Some(id) then (if remaining != [] then Some(remaining[0].id) else None) else active
  }

  /** Deleting never leaves the active chat dangling: it is null or a
      remaining chat, and never the deleted id. */
  lemma DeleteKeepsActiveValid(chats: seq<Chat>, active: Option<Id>, id: Id)
    requires ActiveValid(chats, active)
    ensures ActiveValid(RemoveChat(chats, id), ActiveAfterDelete(RemoveChat(chats, id), active, id))
    ensures ActiveAfterDelete(RemoveChat(chats, id), active, id) != Some(id)
  {
    var r := RemoveChat(chats, id);
    RemoveKeepsIds(chats, id);
    if r != [] {
      assert r[0] in r;
    }
  }

  // ---------------------------------------------------------------------
  // chats.find((chat) => chat.id === id)

  /** Position k holds the first chat whose id is `id`. */
  predicate FirstWithId(chats: seq<Chat>, id: Id, k: int) {
    0 <= k < |chats| && chats[k].id == id && forall j :: 0 <= j < k ==> chats[j].id != id
  }

  /** The first chat whose id is `id`, if there is one. */
  function FindChat(chats: seq<Chat>, id: Id): (r: Option<Chat>)
    ensures r.Some? <==> id in IdSet(chats)
    ensures r.Some? ==> r.value in chats && r.value.id == id
    ensures r.Some? ==> exists k :: FirstWithId(chats, id, k) && r.value == chats[k]
  {
    if chats == [] then None
    else if chats[0].id == id then
      assert FirstWithId(chats, id, 0);
      Some(chats[0])
    else
      var r := FindChat(chats[1..], id);
      if r.Some? then
        var k :| FirstWithId(chats[1..], id, k) && r.value == chats[1..][k];
        assert FirstWithId(chats, id, k + 1);
        r
      else r
  }

  /** With unique ids, finding a chat's id gives back that very chat. */
  lemma {:induction false} FindUnique(chats: seq<Chat>, k: nat)
    requires UniqueIds(chats) && k < |chats|
    ensures FindChat(chats, chats[k].id) == Some(chats[k])
  {
    if k > 0 {
      UniqueTail(chats);
      FindUnique(chats[1..], k - 1);
      assert chats[1..][k - 1] == chats[k];
    }
  }

  /** The messages shown for the active chat: those of the first chat with
      the active id, or none when no chat has it. */
  function VisibleMessages(chats: seq<Chat>, active: Option<Id>): (r: seq<Message>)
    ensures active.None? || active.value !in IdSet(chats) ==> r == []
    ensures active.Some? && active.value in IdSet(chats) ==>
      exists k :: FirstWithId(chats, active.value, k) && r == chats[k].messages
  {
    match active
    case None => []
    case Some(id) =>
      match FindChat(chats, id)
      case None => []
      case Some(c) => c.messages
  }

  /** After the active chat's messages are replaced, exactly the new
      messages are visible. */
  lemma VisibleAfterReplace(chats: seq<Chat>, id: Id, msgs: seq<Message>)
    requires UniqueIds(chats) && id in IdSet(chats)
    ensures VisibleMessages(ReplaceMessages(chats, id, msgs), Some(id)) == msgs
  {
    var r := ReplaceMessages(chats, id, msgs);
    var k :| 0 <= k < |chats| && chats[k].id == id;
    assert r[k].id == id && r[k].messages == msgs;
    ReplaceKeepsUnique(chats, id, msgs);
    FindUnique(r, k);
    assert FindChat(r, id) == Some(r[k]);
  }

  // ---------------------------------------------------------------------
  // Reading storage: JSON.parse(localStorage.getItem(key)) || []

  /** The chat list under "chats", or [] when the key is missing. */
  function StoredChats(storage: Storage): (r: seq<Chat>)
    ensures r == [] || (ChatsKey in storage && storage[ChatsKey] == ChatList(r))
    ensures ChatsKey in storage && storage[ChatsKey].ChatList? ==> r == storage[ChatsKey].chats
  {
    if ChatsKey in storage && storage[ChatsKey].ChatList? then storage[ChatsKey].chats else []
  }

  /** The message list under a chat's id, or [] when the key is missing. */
  function StoredMessages(storage: Storage, key: string): (r: seq<Message>)
    ensures r == [] || (key in storage && storage[key] == MessageList(r))
    ensures key in storage && storage[key].MessageList? ==> r == storage[key].msgs
  {
    if key in storage && storage[key].MessageList? then storage[key].msgs else []
  }

  /** Storage holds `chats` under "chats" and each chat's messages under its
      id: the two copies the UI writes agree. */
  predicate Mirrors(storage: Storage, chats: seq<Chat>) {
    && StoredChats(storage) == chats
    && forall c | c in chats :: StoredMessages(storage, c.id) == c.messages
  }

  /** Storage that the UI itself could have written: its chat list has well
      formed ids and every chat's own key agrees with the list. */
  predicate WellFormedStorage(storage: Storage) {
    WellFormedIds(StoredChats(storage)) && Mirrors(storage, StoredChats(storage))
  }

  /** Writing one chat's new messages under its id and the mapped list under
      "chats" keeps the two copies in agreement. */
  /** Replacing a listed chat's messages and writing both keys keeps ids well
      formed, keeps the chat listed and keeps storage mirroring the list. */
  lemma UpdateKeepsStore(storage: Storage, chats: seq<Chat>, id: Id, msgs: seq<Message>)
    requires Mirrors(storage, chats) && WellFormedIds(chats) && id in IdSet(chats)
    ensures WellFormedIds(ReplaceMessages(chats, id, msgs)) && id in IdSet(ReplaceMessages(chats, id, msgs))
    ensures Mirrors(storage[id := MessageList(msgs)][ChatsKey := ChatList(ReplaceMessages(chats, id, msgs))],
                    ReplaceMessages(chats, id, msgs))
  {
    ReplaceKeepsIds(chats, id, msgs);
    MirrorsAfterUpdate(storage, chats, id, msgs);
  }

  lemma MirrorsAfterUpdate(storage: Storage, chats: seq<Chat>, id: Id, msgs: seq<Message>)
    requires Mirrors(storage, chats) && WellFormedIds(chats) && id in IdSet(chats)
    ensures Mirrors(storage[id := MessageList(msgs)][ChatsKey := ChatList(ReplaceMessages(chats, id, msgs))],
                    ReplaceMessages(chats, id, msgs))
  {
    var r := ReplaceMessages(chats, id, msgs);
    var s := storage[id := MessageList(msgs)][ChatsKey := ChatList(r)];
    assert StoredChats(s) == r;
    forall i | 0 <= i < |r| ensures StoredMessages(s, r[i].id) == r[i].messages {
      var c := chats[i];
      assert c in chats;
      assert r[i].id == c.id && c.id != ChatsKey;
      if c.id == id {
        assert s[c.id] == MessageList(msgs);
      } else {
        assert StoredMessages(s, c.id) == StoredMessages(storage, c.id);
        assert StoredMessages(storage, c.id) == c.messages;
      }
    }
  }

  /** Writing the filtered list under "chats" and dropping the deleted id's
      key keeps the two copies in agreement. */
  lemma MirrorsAfterRemove(storage: Storage, chats: seq<Chat>, id: Id)
    requires Mirrors(storage, chats) && id != ChatsKey
    ensures Mirrors(storage[ChatsKey := ChatList(RemoveChat(chats, id))] - {id}, RemoveChat(chats, id))
  {
    var r := RemoveChat(chats, id);
    RemoveChatMembers(chats, id);
    var s := storage[ChatsKey := ChatList(r)] - {id};
    assert StoredChats(s) == r;
    forall c | c in r ensures StoredMessages(s, c.id) == c.messages {
      assert c in chats && c.id != id;
      assert StoredMessages(s, c.id) == StoredMessages(storage, c.id);
    }
  }

  /** Writing both keys twice leaves what the second writes stored. */
  lemma RewriteBothKeys(s: Storage, key: string, m1: seq<Message>, c1: seq<Chat>, m2: seq<Message>, c2: seq<Chat>)
    ensures s[key := MessageList(m1)][ChatsKey := ChatList(c1)][key := MessageList(m2)][ChatsKey := ChatList(c2)]
         == s[key := MessageList(m2)][ChatsKey := ChatList(c2)]
  {
  }
}
