/** End-to-end runs of the UI, proved from the handlers' contracts alone. */
module Scenarios {
  import opened ChatData
  import opened App
  import opened ChatBotApp

  /** With no stored chats the first send only creates a chat seeded with the
      text and makes no request. */
  method FirstMessageScenario() {
    var app := new AppState(map[]);
    app.LoadStoredChats();
    assert app.chats == [] && app.activeChat == None && app.Valid();

    var session := new Session(app);
    session.HandleInputChange("Hi");
    assert !JsString.AllWhitespace("Hi") by {
      assert !JsString.IsWhitespace("Hi"[0]);
    }
    var request := session.SendMessage("chat-1", "Chat 1", "10:00", "unused", "10:00");
    assert request == None;
    assert app.chats == [Chat("chat-1", "Chat 1", [Message(Prompt, "Hi", "10:00")])];
    assert app.activeChat == Some("chat-1") && app.Valid();
    assert session.inputValue == "" && !session.isTyping;

    session.OnActiveChatChanged();
    assert session.messages == [Message(Prompt, "Hi", "10:00")];
  }

  /** In a chat showing one prompt, a second send makes one request with the
      text and ends with the prompt and the trimmed reply appended. */
  method FollowUpScenario(app: AppState, session: Session)
    requires session.app == app && app.Valid()
    requires app.chats == [Chat("chat-1", "Chat 1", [Message(Prompt, "Hi", "10:00")])]
    requires app.activeChat == Some("chat-1")
    requires session.messages == [Message(Prompt, "Hi", "10:00")]
    modifies app, session
  {
    session.HandleInputChange("Tell me more");
    assert IsSet(app.activeChat);
    assert !JsString.AllWhitespace(session.inputValue) by {
      assert !JsString.IsWhitespace("Tell me more"[0]);
    }
    ghost var shown, sent := session.messages, session.inputValue;
    var request := session.SendMessage("unused", "unused", "10:01", "Sure.", "10:02");
    assert request == Some(sent) && sent == "Tell me more";
    ghost var reply := JsString.Trim("Sure.");
    assert session.messages == shown + [Message(Prompt, sent, "10:01"), Message(Response, reply, "10:02")];
    TrimmedReply();
    FollowUpMessages(shown, sent, reply);
    assert session.messages == [Message(Prompt, "Hi", "10:00"), Message(Prompt, "Tell me more", "10:01"),
                                Message(Response, "Sure.", "10:02")];
    assert !session.isTyping && app.Valid();
  }

  /** The messages of the follow-up run, spelled out. */
  lemma FollowUpMessages(shown: seq<Message>, sent: string, reply: string)
    requires shown == [Message(Prompt, "Hi", "10:00")] && sent == "Tell me more" && reply == "Sure."
    ensures shown + [Message(Prompt, sent, "10:01"), Message(Response, reply, "10:02")]
         == [Message(Prompt, "Hi", "10:00"), Message(Prompt, "Tell me more", "10:01"), Message(Response, "Sure.", "10:02")]
  {
  }

  /** The reply of the follow-up run has no whitespace margins to remove. */
  lemma TrimmedReply()
    ensures JsString.Trim("Sure.") == "Sure."
  {
    assert !JsString.IsWhitespace("Sure."[0]) && !JsString.IsWhitespace("Sure."[4]);
  }

  /** Two chats with the older one selected: deleting the newer one leaves
      the selection alone and the older chat as the only one; deleting that
      one too leaves no chat and no selection. */
  method DeleteInactiveScenario() {
    var app := new AppState(map[]);
    app.LoadStoredChats();
    app.CreateNewChat("a", "Chat A", "", "09:00");
    app.CreateNewChat("b", "Chat B", "", "09:01");
    assert app.chats == [Chat("b", "Chat B", []), Chat("a", "Chat A", [])] && app.Valid();

    var session := new Session(app);
    session.HandleSelectChat("a");
    assert app.Valid();
    session.HandleDeleteChat("b");
    assert app.chats == [Chat("a", "Chat A", [])];
    assert app.activeChat == Some("a") && app.Valid();

    session.HandleDeleteChat("a");
    assert app.chats == [] && app.activeChat == None && app.Valid();
  }
}
