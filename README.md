# Chat UI conversation store and send state machine, in Dafny

This project models the state logic of a small React chat client that keeps
several conversations with a language-model completion endpoint and keeps
them in the browser's local storage. Two components share that state:

- the root component (`src/App.jsx`) owns the chat list (newest first) and
  the active chat id, loads the stored list at start-up, and creates chats;
- the chat window (`src/components/ChatBotApp.jsx`) owns the pending input,
  the visible messages and the typing flag, and handles sending a message,
  selecting and deleting chats and inserting emoji.

Modules:

- `JsString` (`js_string.dfy`): `String.prototype.trim` over ECMAScript
  whitespace and line terminators: the result is the input with a
  whitespace margin cut off each end, and `trim() === ""` holds exactly for
  whitespace-only text.
- `ChatData` (`chat_data.dfy`): messages, chats and storage contents as
  datatypes; the pure list transformations the handlers use (`chats.map`
  replacing one chat's messages, `chats.filter` by id, `chats.find` by id);
  storage reads with their `|| []` default; the invariants (unique ids,
  "active is null or a listed id", storage mirrors the list) and the lemmas
  that the transformations keep them.
- `App` (`app.dfy`): class `AppState` with fields `chats`, `activeChat` and
  `storage` (local storage as a map from key to parsed value: the chat list
  under `"chats"`, a message list under every chat id), and the methods
  `LoadStoredChats`, `CreateNewChat`, `HandleStartChat`.
- `ChatBotApp` (`chat_bot_app.dfy`): class `Session` with `inputValue`,
  `messages`, `isTyping` and a reference `app` to the root state (the props),
  the two message-loading effects and the handlers. `sendMessage` is split
  at its `await`: `SubmitPrompt` (validation, the no-active-chat short cut,
  the prompt append of `AppendPrompt` with both storage writes, typing on)
  returns the values the function's closure holds; `ReceiveReply` (reply
  appended, list mapped from the captured list, both storage writes, typing
  off) takes them and the reply text; `SendMessage` runs both back to back.
- `Scenarios` (`scenarios.dfy`): client runs proved from the contracts: the
  first send of a fresh session, a follow-up send in that chat, and deleting
  an inactive chat and then the last chat.

Behaviour worth knowing, as the code does it: the first message typed while
no chat is active only creates a chat seeded with that text (untrimmed); no
request is made for it and no reply is ever added to it. A request carries
only the text just sent, never earlier messages. The text stored for a
prompt is the untrimmed input; the reply is trimmed. Every state-changing
method states its whole new state. Every method that writes the root state
also states when it keeps the store's invariant `AppState.Valid()`
(well-formed unique ids, active chat null or listed, storage mirrors the
list): creation needs a fresh id, selection an id that is listed, and the
reply phase a list unchanged since the prompt phase.

## Model

| member | source | states |
|---|---|---|
| JsString.TrimStart | src/components/ChatBotApp.jsx:45 | the result is a suffix of the input, only whitespace was dropped, and it does not start with whitespace |
| JsString.TrimEnd | src/components/ChatBotApp.jsx:45 | the result is a prefix of the input, only whitespace was dropped, and it does not end with whitespace |
| JsString.Trim | src/components/ChatBotApp.jsx:93 | the trimmed text is a contiguous slice of the input with only whitespace before and after it, and neither of its ends is whitespace |
| JsString.TrimMargins | src/components/ChatBotApp.jsx:93 | trimming the start and then the end cuts a whitespace margin of known width off the front and one off the back |
| JsString.TrimEmptyIffBlank | src/components/ChatBotApp.jsx:45 | `trim() === ""` holds exactly when every character is whitespace (both directions) |
| ChatData.IsSet | src/components/ChatBotApp.jsx:47 | the truthiness test of `activeChat` (also at line 26): null and the empty string are falsy |
| ChatData.SetIffSome | src/components/ChatBotApp.jsx:47 | on well-formed ids with a valid active chat, the truthiness test agrees with a null test, because no chat id is empty |
| ChatData.SeedMessages | src/App.jsx:39-47 | a non-empty initial message gives exactly one message, a prompt with that text and timestamp; the empty string gives none |
| ChatData.ReplaceMessages | src/components/ChatBotApp.jsx:64-69 | same length and order, every id and label kept, exactly the chats with the given id get the new messages, all others unchanged |
| ChatData.ReplaceKeepsUnique | src/components/ChatBotApp.jsx:64-69 | the map keeps ids unique |
| ChatData.ReplaceKeepsIds | src/components/ChatBotApp.jsx:64-69 | the map keeps the set of ids and their uniqueness |
| ChatData.ReplaceTwice | src/components/ChatBotApp.jsx:109-114 | mapping the list captured before the prompt phase with the final messages equals mapping the list the prompt phase produced |
| ChatData.RemoveChat | src/components/ChatBotApp.jsx:131 | no chat left has the deleted id and the list does not grow |
| ChatData.RemoveChatMembers | src/components/ChatBotApp.jsx:131 | a chat is kept exactly when it was listed and its id differs (both directions) |
| ChatData.RemoveConcat | src/components/ChatBotApp.jsx:131 | the filter distributes over concatenation, so kept chats stay in order |
| ChatData.RemoveAbsent | src/components/ChatBotApp.jsx:131 | deleting an id no chat has leaves the list as it was |
| ChatData.RemoveUniqueIsSplice | src/components/ChatBotApp.jsx:131 | with unique ids, deleting the chat at position k gives the chats before it followed by the chats after it |
| ChatData.RemoveKeepsIds | src/components/ChatBotApp.jsx:131 | the ids left are the old ones minus the deleted id, and they stay well formed |
| ChatData.ActiveAfterDelete | src/components/ChatBotApp.jsx:136-139 | deleting the active chat selects the first remaining chat, or none exactly when none remains; deleting another chat keeps the selection |
| ChatData.DeleteKeepsActiveValid | src/components/ChatBotApp.jsx:136-139 | after a delete the active chat is null or a remaining chat, never the deleted id |
| ChatData.FindChat | src/components/ChatBotApp.jsx:21 | a chat is found exactly when some chat has the id, and the one found is the first chat in the list with that id |
| ChatData.FindUnique | src/components/ChatBotApp.jsx:21 | with unique ids, looking up a listed chat's id finds that chat |
| ChatData.VisibleMessages | src/components/ChatBotApp.jsx:20-23 | no active id, or one no chat has, shows nothing; otherwise the messages shown are those of the first chat with the active id |
| ChatData.VisibleAfterReplace | src/components/ChatBotApp.jsx:59-70 | after the active chat's messages are replaced in the list, exactly the new messages are the ones shown from the list |
| ChatData.StoredChats | src/App.jsx:12 | the list read is the one stored under "chats", or empty when none is stored |
| ChatData.StoredMessages | src/components/ChatBotApp.jsx:27 | the messages read are the ones stored under the key, or empty when none are stored |
| ChatData.UpdateKeepsStore | src/components/ChatBotApp.jsx:59-71 | replacing a listed chat's messages and writing both keys keeps ids well formed, the chat listed and storage mirroring the list |
| ChatData.MirrorsAfterUpdate | src/components/ChatBotApp.jsx:59-71 | writing a listed chat's new messages under its id and the mapped list under "chats" keeps the two stored copies in agreement |
| ChatData.MirrorsAfterRemove | src/components/ChatBotApp.jsx:131-134 | writing the filtered list under "chats" and removing the deleted id's key keeps the two stored copies in agreement |
| App.PrependKeepsValid | src/App.jsx:50-55 | prepending a chat with a fresh id and writing both keys keeps ids unique and storage mirroring the list |
| App.AppState.constructor | src/App.jsx:8-9 | no chats, no active chat, storage as the browser has it |
| App.AppState.LoadStoredChats | src/App.jsx:11-19 | the list becomes the stored list; a non-empty list makes its first chat active, an empty one leaves the active chat; well-formed storage gives a valid store |
| App.AppState.CreateNewChat | src/App.jsx:33-56 | the new list is the new chat followed by the old list, the new chat is active, "chats" holds the new list and the new id holds exactly its messages; a fresh id keeps the store valid |
| App.AppState.HandleStartChat | src/App.jsx:21-27 | a chat with no messages is created only when the list is empty; otherwise list, active chat and storage are unchanged |
| ChatBotApp.Session.constructor | src/components/ChatBotApp.jsx:14-16 | empty input, typing off, the first chat's messages shown (none when there are no chats) |
| ChatBotApp.Session.SyncMessagesFromChats | src/components/ChatBotApp.jsx:20-23 | the shown messages become those of the active chat in the list, or none |
| ChatBotApp.Session.ReloadMessagesFromStorage | src/components/ChatBotApp.jsx:25-30 | when the active id is set the shown messages are reloaded from its key (empty by default); otherwise they are left |
| ChatBotApp.Session.OnActiveChatChanged | src/components/ChatBotApp.jsx:20-30 | after both effects, on a valid store, the shown messages are exactly the active chat's, nothing from the previous chat |
| ChatBotApp.Session.HandleEmojiSelect | src/components/ChatBotApp.jsx:36-38 | the input becomes the old input followed by the emoji's text; nothing else changes |
| ChatBotApp.Session.HandleInputChange | src/components/ChatBotApp.jsx:40-42 | the input becomes the field's value; nothing else changes |
| ChatBotApp.Session.HandleSelectChat | src/components/ChatBotApp.jsx:126-128 | the id becomes active without a check; list and storage unchanged; the store stays valid exactly when the id is listed |
| ChatBotApp.Session.HandleDeleteChat | src/components/ChatBotApp.jsx:130-140 | the list is filtered by id, "chats" is rewritten and the id's key removed; deleting the active chat activates the first remaining chat or none, deleting another leaves the active chat; validity is kept |
| ChatBotApp.Session.SubmitPrompt | src/components/ChatBotApp.jsx:44-72 | blank input changes nothing; no active chat creates a chat seeded with the untrimmed input and clears it, with no request; otherwise the messages grow by exactly the untrimmed prompt, the list and both keys are updated, the input is cleared and typing is on; the store stays valid whenever a chat is active or the new id is fresh |
| ChatBotApp.Session.NewChatFromInput | src/components/ChatBotApp.jsx:47-51 | a chat seeded with the untrimmed input is created first in the list and made active, both keys are written, the input is cleared and nothing else in the window changes; a fresh id keeps the store valid |
| ChatBotApp.Session.AppendPrompt | src/components/ChatBotApp.jsx:53-72 | the messages grow by exactly the untrimmed prompt, the active chat's messages are replaced in the list, its key and "chats" are written, the input is cleared, typing is on, and the store stays valid |
| ChatBotApp.Session.ReceiveReply | src/components/ChatBotApp.jsx:92-116 | the trimmed reply is appended as a response, the captured list is mapped with the result, both keys are written and typing is off; when the list is still the one the prompt phase produced and its chat is active, the store stays valid |
| ChatBotApp.Session.SendMessage | src/components/ChatBotApp.jsx:44-117 | the three paths of a send; a made request carries exactly the untrimmed input, and after the reply the messages are the old ones plus prompt and response in order, both keys hold them, typing is off, and the shown messages are the active chat's; the store stays valid whenever a chat is active or the new id is fresh |

## Left out

- The HTTP request and its JSON response (src/components/ChatBotApp.jsx:74-93): the request is represented by the text `SendMessage` returns, and the reply by the first choice's content passed in as a parameter; the endpoint, model name, bearer credential and `max_tokens` are not modelled.
- A failed request: the code has no handling for it (the prompt stays stored and the typing flag stays on); only the successful reply is modelled.
- `localStorage` serialisation: storage is a map from key to the parsed value; `JSON.stringify`/`JSON.parse`, malformed stored text and storage errors are not modelled. A key holding the wrong kind of value reads as the empty default.
- Timestamps and chat labels (`toLocaleTimeString`, `toLocaleDateString`): passed in as opaque strings.
- `uuidv4`: the new id is a parameter; its freshness (`FreshId`) is the hypothesis under which creation keeps the store valid.
- Interleaving across the `await`: `SendMessage` runs both phases back to back. `ReceiveReply` does map the list captured before the send, as the code does, but no lemma covers a delete or select that happens while a request is in flight.
- React scheduling: the effects are separate methods that the caller runs after a change (`SyncMessagesFromChats` after a change of chats or active chat, then `ReloadMessagesFromStorage` after a change of active chat); batching of state updates is not modelled.
- Rendering, scroll-into-view (src/components/ChatBotApp.jsx:32-34), the emoji picker widget and its show/hide toggles, `handleKeyDown`, `isChatting` and `handleGoBack`: presentation and navigation only.
- The new-chat icon (src/components/ChatBotApp.jsx:147) passes its click event as `initialMessage`; the model's `CreateNewChat` takes the message as a string.
