/**
 * The Telegram bot's handlers as methods over the store: `ensureConversation`,
 * the commands `/start`, `/end`, `/status`, `/help`, `/mode` and the
 * `/generic` and `/mikrotik` shortcuts, and the plain-message turn. Commands
 * arrive already matched by their patterns (the argument of `/mode` and the
 * shortcut word are the captured words); each handler returns the texts it
 * sends to the chat, in order.
 */
module TelegramBot {
  import opened Wrappers
  import opened Entities
  import opened ConversationStore
  import JsText
  import Gemini
  import Turns

  /** The one shared user every Telegram conversation belongs to. */
  const TelegramUsername: string := "telegram_default"
  const TelegramName: string := "Telegram User"
  const TelegramEmail: string := "telegram_default@example.com"

  const StartText: string := "✅ Assistente ativado! Vou responder suas mensagens aqui.\nEnvie /end para pausar quando quiser."
  const EndText: string := "\U{23F8}\U{FE0F} Assistente pausado. Envie /start para reativar."
  const ActiveText: string := "🟢 Assistente está ativo."
  const PausedText: string := "🔴 Assistente está pausado."
  const HelpText: string := "Comandos:\n• /start – ativar o assistente\n• /end – pausar o assistente\n• /status – ver estado\n• /mode generic | mikrotik – trocar modo\n• /mikrotik – atalho para modo MikroTik\n• /generic – atalho para modo genérico"
  const ModeUsageText: string := "Use: /mode generic | /mode mikrotik"
  const ModeUpdatedPrefix: string := "Modo atualizado para: "
  const FailureText: string := "Ops! Tive um problema ao processar sua mensagem 😔"

  datatype ChatType = PrivateChat | GroupChat | SupergroupChat | ChannelChat

  datatype Chat = Chat(id: int, chatType: ChatType)

  /** `String(chatId)`: the external chat id a chat's conversation is keyed by. */
  function ChatKey(chatId: int): (key: string)
    ensures key != [] && (key[0] == '-' <==> chatId < 0)
    ensures key[0] == '-' ==> forall i :: 1 <= i < |key| ==> JsText.IsDigit(key[i])
    ensures key[0] != '-' ==> forall i :: 0 <= i < |key| ==> JsText.IsDigit(key[i])
    ensures JsText.SignedDecimalValue(key) == chatId
  {
    JsText.IntToDecimalRoundTrip(chatId);
    JsText.IntToDecimal(chatId)
  }

  /** The title of a new conversation for the chat. */
  function ChatTitle(chatId: int): (title: string)
    ensures |title| > 5 && title[..5] == "Chat " && title[5..] == ChatKey(chatId)
  {
    var key := ChatKey(chatId);
    assert ("Chat " + key)[5..] == key;
    "Chat " + key
  }

  /** A word the `/mode` argument or the shortcut pattern captures: "generic" or "mikrotik" in any letter case. */
  predicate IsModeWord(word: string) {
    JsText.LowerAscii(word) == "generic" || JsText.LowerAscii(word) == "mikrotik"
  }

  /** `type === "group" || type === "supergroup"`: every chat but a private chat or a channel. */
  predicate IsGroup(t: ChatType)
    ensures IsGroup(t) <==> t != PrivateChat && t != ChannelChat
  {
    t == GroupChat || t == SupergroupChat
  }

  /** `@name`, or the empty string when the bot has no username. */
  function Handle(botUsername: string): (h: string)
    ensures h == [] <==> botUsername == []
    ensures h != [] ==> h[0] == '@' && h[1..] == botUsername
  {
    if botUsername == "" then "" else "@" + botUsername
  }

  /** A plain message is for the bot unless it is in a group and does not mention the bot's handle. */
  predicate Addressed(chat: Chat, text: string, botUsername: string)
    ensures Addressed(chat, text, botUsername) <==>
              || chat.chatType == PrivateChat || chat.chatType == ChannelChat || botUsername == []
              || exists i :: 0 <= i <= |text| - |Handle(botUsername)| && JsText.OccursAt(text, Handle(botUsername), i)
  {
    JsText.ContainsIff(text, Handle(botUsername));
    !(IsGroup(chat.chatType) && Handle(botUsername) != "" && !JsText.Contains(text, Handle(botUsername)))
  }

  /**
   * `c` is the conversation `ensureConversation(chatId)` returns when it takes
   * the users from `usersBefore` to `usersAfter` and finds `convsBefore`: the
   * shared Telegram user is upserted, and the conversation keyed by the chat id
   * is the existing one or a new one titled "Chat <chatId>".
   */
  ghost predicate Ensured(usersBefore: map<string, User>, usersAfter: map<string, User>,
                          convsBefore: map<string, Conversation>, defaults: SchemaDefaults,
                          chatId: int, c: Conversation)
  {
    && UserUpserted(usersBefore, usersAfter, TelegramUsername, TelegramName, TelegramEmail)
    && ChatUpsertResult(convsBefore, ChatKey(chatId), usersAfter[TelegramUsername].id,
                        ChatTitle(chatId), defaults, c)
  }

  method EnsureConversation(store: Store, chatId: int) returns (c: Conversation)
    requires store.Valid()
    modifies store
    ensures store.Valid()
    ensures Ensured(old(store.users), store.users, old(store.conversations), store.defaults, chatId, c)
    ensures store.conversations == old(store.conversations)[c.id := c]
    ensures store.messages == old(store.messages)
  {
    var user := store.UpsertUser(TelegramUsername, TelegramName, TelegramEmail);
    assert user.id in IdsOf(store.users);
    c := store.UpsertChatConversation(ChatKey(chatId), user.id, ChatTitle(chatId));
  }

  /** Calling `EnsureConversation` twice for one chat returns the same conversation and adds at most one. */
  method EnsureConversationTwice(store: Store, chatId: int) returns (first: Conversation, second: Conversation)
    requires store.Valid()
    modifies store
    ensures store.Valid()
    ensures first == second
    ensures store.conversations == old(store.conversations)[first.id := first]
    ensures TelegramUsername in store.users
    ensures store.messages == old(store.messages)
  {
    first := EnsureConversation(store, chatId);
    assert HasExternal(store.conversations, ChatKey(chatId)) by {
      assert store.conversations[first.id].externalChatId == Some(ChatKey(chatId));
    }
    second := EnsureConversation(store, chatId);
  }

  /** Chats with different ids get different conversations. */
  method EnsureDistinctChats(store: Store, a: int, b: int) returns (ca: Conversation, cb: Conversation)
    requires store.Valid() && a != b
    modifies store
    ensures store.Valid()
    ensures ca.id != cb.id
    ensures store.messages == old(store.messages)
  {
    ca := EnsureConversation(store, a);
    cb := EnsureConversation(store, b);
    JsText.IntToDecimalInjective(a, b);
  }

  /** `/start`: the chat's conversation becomes active; nothing else about it changes. */
  method OnStart(store: Store, chatId: int) returns (sent: seq<string>, ghost c: Conversation)
    requires store.Valid()
    modifies store
    ensures store.Valid()
    ensures Ensured(old(store.users), store.users, old(store.conversations), store.defaults, chatId, c)
    ensures store.conversations == old(store.conversations)[c.id := c.(isActive := true)]
    ensures store.messages == old(store.messages)
    ensures sent == [StartText]
  {
    var conv := EnsureConversation(store, chatId);
    c := conv;
    store.SetActive(conv.id, true);
    sent := [StartText];
  }

  /** `/end`: the chat's conversation becomes inactive; nothing else about it changes. */
  method OnEnd(store: Store, chatId: int) returns (sent: seq<string>, ghost c: Conversation)
    requires store.Valid()
    modifies store
    ensures store.Valid()
    ensures Ensured(old(store.users), store.users, old(store.conversations), store.defaults, chatId, c)
    ensures store.conversations == old(store.conversations)[c.id := c.(isActive := false)]
    ensures store.messages == old(store.messages)
    ensures sent == [EndText]
  {
    var conv := EnsureConversation(store, chatId);
    c := conv;
    store.SetActive(conv.id, false);
    sent := [EndText];
  }

  /** `/status`: only the upsert of `ensureConversation`; reports whether the conversation is active. */
  method OnStatus(store: Store, chatId: int) returns (sent: seq<string>, ghost c: Conversation)
    requires store.Valid()
    modifies store
    ensures store.Valid()
    ensures Ensured(old(store.users), store.users, old(store.conversations), store.defaults, chatId, c)
    ensures store.conversations == old(store.conversations)[c.id := c]
    ensures store.messages == old(store.messages)
    ensures sent == [if c.isActive then ActiveText else PausedText]
  {
    var conv := EnsureConversation(store, chatId);
    c := conv;
    sent := [if conv.isActive then ActiveText else PausedText];
  }

  /** `/help`: the fixed list of commands; the store is not involved. */
  method OnHelp(chatId: int) returns (sent: seq<string>)
    ensures sent == [HelpText]
  {
    sent := [HelpText];
  }

  /** Sets the mode of the chat's conversation to the lower-cased `word`. */
  method SetChatMode(store: Store, chatId: int, word: string) returns (sent: seq<string>, ghost c: Conversation)
    requires store.Valid() && IsModeWord(word)
    modifies store
    ensures store.Valid()
    ensures Ensured(old(store.users), store.users, old(store.conversations), store.defaults, chatId, c)
    ensures store.conversations == old(store.conversations)[c.id := c.(domainMode := JsText.LowerAscii(word))]
    ensures store.conversations[c.id].domainMode == "generic" || store.conversations[c.id].domainMode == "mikrotik"
    ensures store.messages == old(store.messages)
    ensures sent == [ModeUpdatedPrefix + JsText.LowerAscii(word)]
  {
    var choice := JsText.LowerAscii(word);
    var conv := EnsureConversation(store, chatId);
    c := conv;
    store.SetDomainMode(conv.id, choice);
    sent := [ModeUpdatedPrefix + choice];
  }

  /**
   * `/mode [word]`: without a word, only a usage hint and no store access;
   * with one, the conversation's mode becomes the lower-cased word and its
   * active flag is kept.
   */
  method OnMode(store: Store, chatId: int, word: Option<string>) returns (sent: seq<string>, ghost c: Option<Conversation>)
    requires store.Valid()
    requires word.Some? ==> IsModeWord(word.value)
    modifies store
    ensures store.Valid()
    ensures word.None? ==> c.None? && sent == [ModeUsageText] && unchanged(store)
    ensures word.Some? ==>
              && c.Some?
              && Ensured(old(store.users), store.users, old(store.conversations), store.defaults, chatId, c.value)
              && store.conversations
                   == old(store.conversations)[c.value.id := c.value.(domainMode := JsText.LowerAscii(word.value))]
              && store.messages == old(store.messages)
              && sent == [ModeUpdatedPrefix + JsText.LowerAscii(word.value)]
  {
    if word.None? {
      return [ModeUsageText], None;
    }
    ghost var conv;
    sent, conv := SetChatMode(store, chatId, word.value);
    c := Some(conv);
  }

  /** `/generic` and `/mikrotik`: the same update as `/mode` with that word. */
  method OnModeShortcut(store: Store, chatId: int, word: string) returns (sent: seq<string>, ghost c: Conversation)
    requires store.Valid() && IsModeWord(word)
    modifies store
    ensures store.Valid()
    ensures Ensured(old(store.users), store.users, old(store.conversations), store.defaults, chatId, c)
    ensures store.conversations == old(store.conversations)[c.id := c.(domainMode := JsText.LowerAscii(word))]
    ensures store.messages == old(store.messages)
    ensures sent == [ModeUpdatedPrefix + JsText.LowerAscii(word)]
  {
    sent, c := SetChatMode(store, chatId, word);
  }

  /**
   * A plain message (`msg.text`, absent for a message without text). Text
   * starting with "/" is left to the commands and changes nothing. Otherwise
   * the conversation is ensured; a message not addressed to the bot, or one
   * to an inactive conversation, then stores nothing and sends nothing. An
   * accepted message stores the user's text, asks the model with that message
   * already in the history, and on success stores the reply and sends it in
   * chunks of 3800 characters; on failure the user's message stays stored,
   * no reply is stored, and an apology is sent.
   */
  method OnMessage(store: Store, chat: Chat, text: Option<string>, botUsername: string,
                   apiKey: string, gen: Gemini.Generator)
    returns (sent: seq<string>, ghost c: Option<Conversation>)
    requires store.Valid()
    modifies store
    ensures store.Valid()
    ensures "/" <= text.GetOr("") ==> c.None? && sent == [] && unchanged(store)
    ensures !("/" <= text.GetOr("")) ==>
              && c.Some?
              && Ensured(old(store.users), store.users, old(store.conversations), store.defaults, chat.id, c.value)
              && store.conversations == old(store.conversations)[c.value.id := c.value]
    ensures c.Some? && !(Addressed(chat, text.GetOr(""), botUsername) && c.value.isActive) ==>
              sent == [] && store.messages == old(store.messages)
    ensures c.Some? && Addressed(chat, text.GetOr(""), botUsername) && c.value.isActive ==>
              var reply := Turns.TurnReply(apiKey, store.conversations, old(store.messages), c.value.id,
                                           text.GetOr(""), gen);
              && store.messages == Turns.Stored(old(store.messages), c.value.id, text.GetOr(""), reply)
              && sent == (if reply.Success? then Gemini.Chunks(reply.value, Gemini.DefaultChunkSize) else [FailureText])
  {
    var t := text.GetOr("");
    if "/" <= t {
      return [], None;
    }
    var conv := EnsureConversation(store, chat.id);
    c := Some(conv);
    var handle := Handle(botUsername);
    if IsGroup(chat.chatType) && handle != "" && !JsText.Contains(t, handle) {
      return [], c;
    }
    if !conv.isActive {
      return [], c;
    }
    sent := Converse(store, conv, t, apiKey, gen);
  }

  /**
   * The turn for an accepted message, then the sending: on success the
   * reply's chunks in order, on failure the apology.
   */
  method Converse(store: Store, conv: Conversation, t: string, apiKey: string, gen: Gemini.Generator)
    returns (sent: seq<string>)
    requires store.Valid() && conv.id in store.conversations
    modifies store`messages
    ensures store.Valid()
    ensures var reply := Turns.TurnReply(apiKey, store.conversations, old(store.messages), conv.id, t, gen);
            && store.messages == Turns.Stored(old(store.messages), conv.id, t, reply)
            && sent == (if reply.Success? then Gemini.Chunks(reply.value, Gemini.DefaultChunkSize) else [FailureText])
  {
    var reply := Turns.Turn(store, conv.id, t, apiKey, gen);
    match reply
    case Failure(_) =>
      sent := [FailureText];
    case Success(answer) =>
      var chunks := Gemini.SplitIntoChunks(answer, Gemini.DefaultChunkSize);
      sent := SendAll(chunks);
  }

  /** Sends the chunks one by one, in order. */
  method SendAll(chunks: seq<string>) returns (sent: seq<string>)
    ensures sent == chunks
  {
    sent := [];
    for k := 0 to |chunks|
      invariant sent == chunks[..k]
    {
      sent := sent + [chunks[k]];
    }
  }

  /** After `/end`, a plain message in that chat stores nothing and sends nothing. */
  method PausedChatIsSilent(store: Store, chat: Chat, text: string, botUsername: string,
                            apiKey: string, gen: Gemini.Generator)
    returns (sent: seq<string>)
    requires store.Valid() && !("/" <= text)
    modifies store
    ensures store.Valid()
    ensures sent == []
    ensures store.messages == old(store.messages)
  {
    var _, paused := OnEnd(store, chat.id);
    ghost var convs := store.conversations;
    ghost var c;
    sent, c := OnMessage(store, chat, Some(text), botUsername, apiKey, gen);
    ChatUpsertFindsExisting(convs, ChatKey(chat.id), store.users[TelegramUsername].id, ChatTitle(chat.id),
                            store.defaults, c.value, paused.id);
  }

  /**
   * After `/start`, in a private chat with a model that answers, a plain
   * message stores exactly two messages, the user's text and then the reply,
   * and the chunks sent spell out the stored reply.
   */
  method ResumedChatAnswers(store: Store, chatId: int, text: string, botUsername: string,
                            apiKey: string, gen: Gemini.Generator)
    returns (sent: seq<string>)
    requires store.Valid() && !("/" <= text) && apiKey != ""
    requires forall p :: gen(p).Produced?
    modifies store
    ensures store.Valid()
    ensures |store.messages| == |old(store.messages)| + 2
    ensures store.messages[|store.messages| - 2].role == UserRole
    ensures store.messages[|store.messages| - 2].content == text
    ensures store.messages[|store.messages| - 1].role == AssistantRole
    ensures Gemini.Concat(sent) == store.messages[|store.messages| - 1].content
  {
    var _, resumed := OnStart(store, chatId);
    ghost var convs, before := store.conversations, store.messages;
    ghost var c;
    sent, c := OnMessage(store, Chat(chatId, PrivateChat), Some(text), botUsername, apiKey, gen);
    ChatUpsertFindsExisting(convs, ChatKey(chatId), store.users[TelegramUsername].id, ChatTitle(chatId),
                            store.defaults, c.value, resumed.id);
    assert c.value.id == resumed.id && c.value.isActive;
    assert Addressed(Chat(chatId, PrivateChat), text, botUsername);
    ghost var reply := Turns.TurnReply(apiKey, store.conversations, before, resumed.id, text, gen);
    Turns.TurnSucceeds(apiKey, store.conversations, before, resumed.id, text, gen);
    assert store.messages == Turns.Stored(before, resumed.id, text, reply);
    assert sent == Gemini.Chunks(reply.value, Gemini.DefaultChunkSize);
    Gemini.ChunksConcat(reply.value, Gemini.DefaultChunkSize);
  }
}
