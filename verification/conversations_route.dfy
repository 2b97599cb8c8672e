/**
 * `POST /conversations`: starts a web conversation owned by the shared web
 * user, with the title and mode the body gives or their defaults.
 */
module ConversationsRoute {
  import opened Wrappers
  import opened Entities
  import opened ConversationStore

  const WebUsername: string := "web_default"
  const WebName: string := "Web User"
  const WebEmail: string := "web_default@example.com"
  const DefaultTitle: string := "Web chat"
  const DefaultMode: string := "generic"

  /** The body's fields; an absent body is one with neither. */
  datatype NewConversationBody = NewConversationBody(title: Option<string>, domainMode: Option<string>)

  /** The response: the new conversation's id and mode. */
  datatype Created = Created(id: string, domainMode: string)

  method PostConversations(store: Store, body: NewConversationBody) returns (response: Created)
    requires store.Valid()
    modifies store
    ensures store.Valid()
    ensures UserUpserted(old(store.users), store.users, WebUsername, WebName, WebEmail)
    ensures response.id !in old(store.conversations)
    ensures store.conversations == old(store.conversations)[response.id := Conversation(
              response.id, store.users[WebUsername].id, Web, None,
              body.title.GetOr(DefaultTitle), store.defaults.isActive, response.domainMode)]
    ensures response.domainMode == body.domainMode.GetOr(DefaultMode)
    ensures store.messages == old(store.messages)
  {
    var user := store.UpsertUser(WebUsername, WebName, WebEmail);
    assert user.id in IdsOf(store.users);
    var conv := store.CreateConversation(user.id, Web, body.title.GetOr(DefaultTitle),
                                         body.domainMode.GetOr(DefaultMode));
    response := Created(conv.id, conv.domainMode);
  }

  /** Two requests create two conversations, both owned by the one web user. */
  method PostTwice(store: Store, first: NewConversationBody, second: NewConversationBody)
    returns (a: Created, b: Created)
    requires store.Valid()
    modifies store
    ensures store.Valid()
    ensures a.id != b.id
    ensures a.id in store.conversations && b.id in store.conversations && WebUsername in store.users
    ensures store.conversations[a.id].userId == store.conversations[b.id].userId == store.users[WebUsername].id
    ensures |store.conversations.Keys| == |old(store.conversations).Keys| + 2
  {
    a := PostConversations(store, first);
    b := PostConversations(store, second);
    assert store.conversations.Keys == old(store.conversations).Keys + {a.id, b.id};
  }
}
