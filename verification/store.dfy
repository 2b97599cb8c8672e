/**
 * The conversation store the handlers share: users keyed by their unique
 * username, conversations keyed by id (with a unique optional external chat
 * id) and the append-only sequence of messages. Each method is one store call
 * the handlers make (an upsert, a create, an update, an append or a lookup).
 */
module ConversationStore {
  import opened Wrappers
  import opened Entities
  import JsText

  /**
   * The identifier the store gives its n-th new record. The database issues
   * random unique ids instead; all the handlers rely on is that a new id is
   * unused, which `Store.Valid` keeps for every id from `issued` on.
   */
  function IdFor(n: nat): (id: string)
    ensures id != []
  {
    JsText.NatToDecimal(n)
  }

  ghost function IdsOf(users: map<string, User>): set<string> {
    set u | u in users :: users[u].id
  }

  lemma IdsOfInsert(users: map<string, User>, username: string, u: User)
    requires username !in users
    ensures IdsOf(users[username := u]) == IdsOf(users) + {u.id}
  {
    var after := users[username := u];
    forall x | x in IdsOf(after)
      ensures x in IdsOf(users) + {u.id}
    {
      var w :| w in after && after[w].id == x;
      if w != username {
        assert users[w].id == x;
      }
    }
    forall x | x in IdsOf(users)
      ensures x in IdsOf(after)
    {
      var w :| w in users && users[w].id == x;
      assert after[w].id == x;
    }
    assert after[username].id == u.id;
  }

  /** Some conversation in `convs` has external chat id `key`. */
  ghost predicate HasExternal(convs: map<string, Conversation>, key: string) {
    exists id :: id in convs && convs[id].externalChatId == Some(key)
  }

  /** No two conversations share an external chat id. */
  ghost predicate ExternalUnique(convs: map<string, Conversation>) {
    forall a, b ::
      (a in convs && b in convs && a != b && convs[a].externalChatId.Some?) ==>
        convs[a].externalChatId != convs[b].externalChatId
  }

  /**
   * `user.upsert` keyed by `username`, with an empty update: an existing user
   * is left as it is, otherwise one user with a fresh id and the given fields
   * is added.
   */
  ghost predicate UserUpserted(before: map<string, User>, after: map<string, User>,
                               username: string, name: string, email: string)
  {
    && username in after
    && (username in before ==> after == before)
    && (username !in before ==>
          && after == before[username := User(after[username].id, name, username, email)]
          && after[username].id !in IdsOf(before))
  }

  /**
   * `c` is what `conversation.upsert` keyed by external chat id `key`, with an
   * empty update, returns on `before`: the existing conversation with that key,
   * or a new Telegram conversation whose `isActive` and `domainMode` are the
   * schema's defaults.
   */
  ghost predicate ChatUpsertResult(before: map<string, Conversation>, key: string, userId: string,
                                   title: string, defaults: SchemaDefaults, c: Conversation)
  {
    if HasExternal(before, key) then
      c.id in before && before[c.id] == c && c.externalChatId == Some(key)
    else
      c.id !in before
      && c == Conversation(c.id, userId, Telegram, Some(key), title, defaults.isActive, defaults.domainMode)
  }

  /**
   * With external chat ids unique, an upsert by a key some conversation
   * already has returns that very conversation.
   */
  lemma ChatUpsertFindsExisting(before: map<string, Conversation>, key: string, userId: string, title: string,
                                defaults: SchemaDefaults, c: Conversation, id: string)
    requires ExternalUnique(before)
    requires id in before && before[id].externalChatId == Some(key)
    requires ChatUpsertResult(before, key, userId, title, defaults, c)
    ensures c == before[id]
  {
    assert HasExternal(before, key);
  }

  class Store {
    /** What the schema fills in for a conversation created without those fields. */
    const defaults: SchemaDefaults
    var users: map<string, User>
    var conversations: map<string, Conversation>
    var messages: seq<Message>
    /** How many ids the store has issued. */
    var issued: nat

    ghost predicate Valid()
      reads this
    {
      && (forall u :: u in users ==> users[u].username == u)
      && (forall id :: id in conversations ==>
            conversations[id].id == id && conversations[id].userId in IdsOf(users))
      && ExternalUnique(conversations)
      && (forall i :: 0 <= i < |messages| ==> messages[i].conversationId in conversations)
      && (forall j :: issued <= j ==> IdFor(j) !in conversations && IdFor(j) !in IdsOf(users))
    }

    constructor (defaults: SchemaDefaults)
      ensures Valid() && this.defaults == defaults
      ensures users == map[] && conversations == map[] && messages == []
    {
      this.defaults := defaults;
      users, conversations, messages, issued := map[], map[], [], 0;
    }

    /** A new id, used by no user and no conversation. */
    method Issue() returns (id: string)
      requires Valid()
      modifies this`issued
      ensures Valid() && id == IdFor(old(issued)) && issued == old(issued) + 1
      ensures id !in conversations && id !in IdsOf(users)
      ensures forall j :: issued <= j ==> IdFor(j) != id
    {
      id := IdFor(issued);
      forall j | issued < j
        ensures IdFor(j) != id
      {
        JsText.NatToDecimalInjective(j, issued);
      }
      issued := issued + 1;
    }

    method UpsertUser(username: string, name: string, email: string) returns (u: User)
      requires Valid()
      modifies this
      ensures Valid()
      ensures UserUpserted(old(users), users, username, name, email) && u == users[username]
      ensures conversations == old(conversations) && messages == old(messages)
    {
      if username in users {
        u := users[username];
      } else {
        var id := Issue();
        u := User(id, name, username, email);
        users := users[username := u];
        IdsOfInsert(old(users), username, u);
      }
    }

    method UpsertChatConversation(key: string, userId: string, title: string) returns (c: Conversation)
      requires Valid() && userId in IdsOf(users)
      modifies this
      ensures Valid()
      ensures ChatUpsertResult(old(conversations), key, userId, title, defaults, c)
      ensures conversations == old(conversations)[c.id := c]
      ensures users == old(users) && messages == old(messages)
    {
      if exists id :: id in conversations && conversations[id].externalChatId == Some(key) {
        var id :| id in conversations && conversations[id].externalChatId == Some(key);
        c := conversations[id];
      } else {
        var id := Issue();
        c := Conversation(id, userId, Telegram, Some(key), title, defaults.isActive, defaults.domainMode);
        conversations := conversations[id := c];
      }
    }

    method CreateConversation(userId: string, channel: Channel, title: string, domainMode: string)
      returns (c: Conversation)
      requires Valid() && userId in IdsOf(users)
      modifies this
      ensures Valid()
      ensures c.id !in old(conversations)
      ensures c == Conversation(c.id, userId, channel, None, title, defaults.isActive, domainMode)
      ensures conversations == old(conversations)[c.id := c]
      ensures users == old(users) && messages == old(messages)
    {
      var id := Issue();
      c := Conversation(id, userId, channel, None, title, defaults.isActive, domainMode);
      conversations := conversations[id := c];
    }

    method FindConversation(id: string) returns (c: Option<Conversation>)
      ensures c.Some? <==> id in conversations
      ensures c.Some? ==> c.value == conversations[id]
    {
      c := if id in conversations then Some(conversations[id]) else None;
    }

    method SetActive(id: string, active: bool)
      requires Valid() && id in conversations
      modifies this`conversations
      ensures Valid()
      ensures conversations == old(conversations)[id := old(conversations)[id].(isActive := active)]
    {
      conversations := conversations[id := conversations[id].(isActive := active)];
    }

    method SetDomainMode(id: string, mode: string)
      requires Valid() && id in conversations
      modifies this`conversations
      ensures Valid()
      ensures conversations == old(conversations)[id := old(conversations)[id].(domainMode := mode)]
    {
      conversations := conversations[id := conversations[id].(domainMode := mode)];
    }

    method Append(m: Message)
      requires Valid() && m.conversationId in conversations
      modifies this`messages
      ensures Valid()
      ensures messages == old(messages) + [m]
    {
      messages := messages + [m];
    }
  }
}
