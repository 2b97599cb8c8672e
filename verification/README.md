# Telecom chat assistant: verified model of the reply service, the Telegram bot and the web routes

This project models the back end of a telecom support assistant. Users talk to a language model either
through a Telegram bot or through two web routes. Every turn is persisted in a conversation store.
That store holds:

- users, unique by username;
- conversations, unique by id, optionally keyed by a Telegram chat id, each with an active flag and a
  domain mode ("generic" or "mikrotik");
- the append-only sequence of messages.

The modules follow the program's structure:

- `Wrappers`: `Option`/`Result`.
- `JsText`: the JavaScript built-ins the handlers depend on:
  - `trim`;
  - `includes`;
  - lower-casing of the ASCII words the bot's command patterns capture;
  - `String(n)` of a chat id, with its inverse.
- `Entities`: the persisted records.
- `ConversationStore`: the store, as a class. Its methods are the store calls the handlers make:
  - a user upsert by username;
  - a conversation upsert by external chat id;
  - a conversation create;
  - a lookup;
  - the two updates;
  - the message append.

  `Store.Valid` is the invariant every method keeps:
  - usernames and ids are consistent with their keys;
  - every conversation's owner exists;
  - external chat ids are unique;
  - every message belongs to an existing conversation;
  - every id not yet issued is fresh.
- `Gemini`: the reply service. This covers:
  - the system instructions per mode;
  - the role mapping;
  - the history query and its in-place reversal;
  - prompt assembly;
  - the trim-or-apology finishing step;
  - the chunk splitter that long replies go through.

  The model call itself is a parameter `gen` (a function from prompt to outcome), which may fail.
- `TelegramBot`: `ensureConversation`, every command handler, and the plain-message turn.
- `ChatRoute`: `POST /chat`.
- `ConversationsRoute`: `POST /conversations`.

The defaults the database schema gives a new conversation's `isActive` and `domainMode` are the
`defaults` parameter of the store. The code never sets them on a Telegram conversation, so the model
does not fix them either.

## Model

| member | source | states |
|---|---|---|
| JsText.Trim | apps/api/src/services/gemini.ts:76 | `trim` returns the contiguous slice left after removing the whitespace and line terminators at both ends; it is empty exactly when the whole text is whitespace |
| JsText.TrimIdempotent | apps/api/src/services/gemini.ts:76 | trimming a trimmed text changes nothing |
| JsText.ContainsIff | apps/api/src/plugins/telegram.ts:113 | `includes` holds exactly when the handle occurs at some offset of the text |
| JsText.LowerAscii | apps/api/src/plugins/telegram.ts:85 | `toLowerCase` of a captured command word keeps its length, maps each letter to lower case, and leaves no upper-case ASCII letter |
| JsText.NatToDecimal | apps/api/src/plugins/telegram.ts:36 | the decimal form of a number is non-empty, all digits, with no leading zero |
| JsText.NatToDecimalRoundTrip | apps/api/src/plugins/telegram.ts:36 | reading the decimal form back gives the number |
| JsText.IntToDecimal | apps/api/src/plugins/telegram.ts:36 | `String(chatId)` is non-empty and starts with a minus sign exactly for negative ids (group chats) |
| JsText.IntToDecimalRoundTrip | apps/api/src/plugins/telegram.ts:36 | `String(chatId)` reads back to the chat id |
| JsText.IntToDecimalInjective | apps/api/src/plugins/telegram.ts:36 | distinct chat ids give distinct external chat keys |
| ConversationStore.IdFor | apps/api/src/plugins/telegram.ts:38-43 | an issued id is never empty |
| ConversationStore.IdsOfInsert | apps/api/src/routes/conversations.route.ts:7-11 | creating a user adds exactly its id to the set of user ids |
| ConversationStore.ChatUpsertFindsExisting | apps/api/src/plugins/telegram.ts:35-44 | with external chat ids unique, upserting by a key some conversation already has returns exactly that stored conversation |
| ConversationStore.Store.constructor | apps/api/src/plugins/telegram.ts:28-47 | an empty store is valid and has the given schema defaults |
| ConversationStore.Store.Issue | apps/api/src/routes/conversations.route.ts:13-20 | a new id is used by no user and no conversation, and is never issued again |
| ConversationStore.Store.UpsertUser | apps/api/src/plugins/telegram.ts:29-33 | upsert by username with an empty update: an existing user is returned unchanged; otherwise exactly one user with a fresh id and the given fields is added; conversations and messages are unchanged |
| ConversationStore.Store.UpsertChatConversation | apps/api/src/plugins/telegram.ts:35-44 | upsert by external chat id with an empty update: the existing conversation with that key, or a new one with a fresh id, channel telegram, that key, the title, and the schema's `isActive` and `domainMode`; nothing else changes |
| ConversationStore.Store.CreateConversation | apps/api/src/routes/conversations.route.ts:13-20 | always creates: a conversation under a fresh id with the given owner, channel, title and mode, no external chat id, and the schema's `isActive` |
| ConversationStore.Store.FindConversation | apps/api/src/routes/chat.route.ts:9 | `findUnique` by id: found exactly when the id is stored, and then the stored conversation |
| ConversationStore.Store.SetActive | apps/api/src/plugins/telegram.ts:52 | only the `isActive` field of that one conversation changes |
| ConversationStore.Store.SetDomainMode | apps/api/src/routes/chat.route.ts:14-17 | only the `domainMode` field of that one conversation changes |
| ConversationStore.Store.Append | apps/api/src/routes/chat.route.ts:20-22 | `message.create`: the message is appended at the end and earlier messages are unchanged |
| Gemini.ToGeminiRole | apps/api/src/services/gemini.ts:6 | a turn is a user turn exactly when the message role is user; assistant and system become model turns |
| Gemini.SystemFor | apps/api/src/services/gemini.ts:32-34 | the MikroTik instructions exactly for "mikrotik", the generic ones for every other mode |
| Gemini.ModeOf | apps/api/src/services/gemini.ts:53-54 | the stored mode of the conversation, or "generic" when the lookup finds none |
| Gemini.SystemBlockOf | apps/api/src/services/gemini.ts:53-54 | a missing conversation is prompted with the generic block; the MikroTik block is used exactly when the conversation exists with mode "mikrotik" |
| Gemini.Prompt | apps/api/src/services/gemini.ts:63-67 | the prompt has history length + 2 turns: a user turn with the mode's instructions, one turn per history message in order with its mapped role and content, then a user turn with the new text |
| Gemini.MessagesOf | apps/api/src/services/gemini.ts:56-60 | the conversation's messages: only messages of that conversation, and every message of it in the store is among them |
| Gemini.MessagesOfConcat | apps/api/src/services/gemini.ts:56-60 | the query over a store split in two is the query over the first part followed by the query over the second: creation order is kept |
| Gemini.MessagesOfAppend | apps/api/src/services/gemini.ts:56-60 | a message appended to a conversation becomes its newest message and leaves other conversations' histories as they were |
| Gemini.ReverseAt | apps/api/src/services/gemini.ts:61 | element k of the reversal is element n-1-k of the original |
| Gemini.MirrorIsReverse | apps/api/src/services/gemini.ts:61 | a sequence holding another's elements back to front is its reversal |
| Gemini.FetchNewestFirst | apps/api/src/services/gemini.ts:56-60 | the fetch returns min(maxHistory, count) messages, the k-th being the k-th newest message of the conversation |
| Gemini.NewestFirstAt | apps/api/src/services/gemini.ts:56-60 | element k of the newest-first order is the k-th message from the end |
| Gemini.RecentHistory | apps/api/src/services/gemini.ts:56-61 | the newest-first fetch of at most `maxHistory` messages, reversed, is exactly the last min(maxHistory, count) messages of the conversation in creation order |
| Gemini.SwapStep | apps/api/src/services/gemini.ts:61 | one swap of the two innermost unswapped elements extends a partial in-place reversal by one position at each end |
| Gemini.SwappedAll | apps/api/src/services/gemini.ts:61 | once the swaps meet in the middle, the array holds the reversal |
| Gemini.ReverseInPlace | apps/api/src/services/gemini.ts:61 | `history.reverse()` leaves the array holding the reversal of its old contents |
| Gemini.PromptFor | apps/api/src/services/gemini.ts:53-67 | the prompt for a conversation has min(maxHistory, count) + 2 turns, opens with the instructions for its stored mode (or "generic") and ends with the new text |
| Gemini.PromptIsRecentHistory | apps/api/src/services/gemini.ts:53-67 | the prompt sent for a conversation is the prompt for its stored mode (or "generic") over its most recent messages oldest first, followed by the new text |
| Gemini.StoredTextIsNewestTurn | apps/api/src/services/gemini.ts:56-67 | when the user's text was stored just before generating, the prompt's last two turns are both that text as user turns |
| Gemini.FinalText | apps/api/src/services/gemini.ts:76-77 | the reply is the model's text trimmed when that trim is non-empty, and the fixed apology exactly when the trim is empty; it is never empty |
| Gemini.Reply | apps/api/src/services/gemini.ts:38-78 | fails with a missing-key error exactly when the API key is empty; a successful reply is never empty |
| Gemini.MissingKeyIgnoresStore | apps/api/src/services/gemini.ts:51 | with an empty API key the outcome does not depend on the store |
| Gemini.GenerateReply | apps/api/src/services/gemini.ts:38-78 | the imperative reply (lookup, fetch, in-place reverse, prompt, model call, finishing) equals `Reply` over the store's current contents |
| Gemini.ChunksConcat | apps/api/src/services/gemini.ts:80-84 | concatenating the chunks in order gives back the text |
| Gemini.ChunksCount | apps/api/src/services/gemini.ts:82 | the number of chunks is ceil(length / max); it is zero exactly for the empty text |
| Gemini.ChunkLengths | apps/api/src/services/gemini.ts:82 | every chunk is non-empty and at most `max` long, and every chunk but the last is exactly `max` long |
| Gemini.ChunkAt | apps/api/src/services/gemini.ts:82 | chunk k is the slice from k·max to min((k+1)·max, length) |
| Gemini.CountStep | apps/api/src/services/gemini.ts:82 | arithmetic step of the chunk count: if the text after the first chunk needs m chunks, then m·max < length <= (m+1)·max |
| Gemini.ChunkShift | apps/api/src/services/gemini.ts:82 | chunk j of the text after its first `max` characters is chunk j+1 of the whole text, shifted by `max` |
| Gemini.StepOffsets | apps/api/src/services/gemini.ts:82 | the offsets of chunk k-1 of the rest, shifted by `max`, are those of chunk k of the whole text |
| Gemini.ChunksFrom | apps/api/src/services/gemini.ts:82 | one loop step: the chunks of a suffix are its first slice of at most `max` characters followed by the chunks of the rest |
| Gemini.ChunksLoopStep | apps/api/src/services/gemini.ts:82-83 | one iteration of the splitting loop keeps the chunks emitted so far followed by the chunks of the unread rest equal to the chunks of the whole text |
| Gemini.SplitIntoChunks | apps/api/src/services/gemini.ts:80-84 | the loop that advances by `max` produces exactly `Chunks`, whose concatenation is the input |
| Turns.Stored | apps/api/src/routes/chat.route.ts:20-32 | after a turn the earlier messages are unchanged, the user's message follows them and, only when the reply succeeded, the assistant's reply follows that |
| Turns.TurnSucceeds | apps/api/src/services/gemini.ts:51-77 | with an API key and a model that always produces text, the turn's reply is a success |
| Turns.Turn | apps/api/src/routes/chat.route.ts:20-32 | the reply is computed with the user's message already stored; exactly that message, then the answer when there is one, are appended; the store stays valid |
| TelegramBot.ChatKey | apps/api/src/plugins/telegram.ts:36-41 | `String(chatId)`: non-empty, a minus sign exactly for negative ids, digits otherwise, and it reads back to the chat id |
| TelegramBot.ChatTitle | apps/api/src/plugins/telegram.ts:42 | the title is "Chat " followed by the chat's key |
| TelegramBot.Handle | apps/api/src/plugins/telegram.ts:111 | `@name`, empty exactly when the bot has no username |
| TelegramBot.IsGroup | apps/api/src/plugins/telegram.ts:112 | a group or supergroup: every chat type but private and channel |
| TelegramBot.Addressed | apps/api/src/plugins/telegram.ts:111-113 | a message is handled exactly when the chat is not a group, the bot has no username, or the handle occurs in the text |
| TelegramBot.EnsureConversation | apps/api/src/plugins/telegram.ts:28-47 | upserts the shared Telegram user, then returns the chat's existing conversation or a new one with channel telegram, key `String(chatId)` and title "Chat <chatId>"; messages are unchanged |
| TelegramBot.EnsureConversationTwice | apps/api/src/plugins/telegram.ts:28-47 | ensuring a chat's conversation twice returns the same conversation and adds at most one |
| TelegramBot.EnsureDistinctChats | apps/api/src/plugins/telegram.ts:35-44 | different chats get different conversations |
| TelegramBot.OnStart | apps/api/src/plugins/telegram.ts:49-54 | the chat's conversation becomes active with every other field kept; no message is stored; the activation text is sent |
| TelegramBot.OnEnd | apps/api/src/plugins/telegram.ts:56-61 | the chat's conversation becomes inactive with every other field kept; no message is stored; the pause text is sent |
| TelegramBot.OnStatus | apps/api/src/plugins/telegram.ts:63-67 | beyond the upsert nothing changes; reports whether the conversation is active |
| TelegramBot.OnHelp | apps/api/src/plugins/telegram.ts:69-81 | sends the command list without touching the store |
| TelegramBot.SetChatMode | apps/api/src/plugins/telegram.ts:90-92 | sets the mode to the lower-cased word ("generic" or "mikrotik") with the active flag kept, and confirms the choice |
| TelegramBot.OnMode | apps/api/src/plugins/telegram.ts:83-93 | without a word: only the usage hint, and the store is unchanged; with one: as `SetChatMode` |
| TelegramBot.OnModeShortcut | apps/api/src/plugins/telegram.ts:95-101 | `/generic` and `/mikrotik` perform the same update as `/mode` with that word |
| TelegramBot.OnMessage | apps/api/src/plugins/telegram.ts:103-139 | text starting with "/" changes nothing; otherwise the conversation is ensured; a group message without the bot's handle, or one to an inactive conversation, stores and sends nothing; an accepted one behaves as `Converse` |
| TelegramBot.Converse | apps/api/src/plugins/telegram.ts:117-138 | stores the user's text, asks the model with it in history; on success exactly the user message then the assistant reply are stored and the reply's chunks are sent in order; on failure only the user message stays stored and the apology is sent |
| TelegramBot.SendAll | apps/api/src/plugins/telegram.ts:132-134 | the chunks are sent one by one, all of them, in order |
| TelegramBot.PausedChatIsSilent | apps/api/src/plugins/telegram.ts:56-61 | after `/end` a plain message to that chat stores and sends nothing |
| TelegramBot.ResumedChatAnswers | apps/api/src/plugins/telegram.ts:49-54 | after `/start`, a plain private message (with an API key and a model that answers) stores the user message then the reply, and the chunks sent concatenate to the stored reply |
| ChatRoute.Given | apps/api/src/routes/chat.route.ts:7-13 | JavaScript truthiness of an optional body field: present and not the empty string |
| ChatRoute.Switched | apps/api/src/routes/chat.route.ts:13-18 | a body naming a non-empty mode leaves the conversation with that mode; otherwise the conversation is unchanged |
| ChatRoute.PostChat | apps/api/src/routes/chat.route.ts:4-35 | a missing or empty id or text gives 400 and an unknown id 404, both with the store unchanged; otherwise the mode is switched, the user message and on success the answer are appended, and the answer returned is the one stored; a generation failure propagates with only the user message stored |
| ChatRoute.ChangeMode | apps/api/src/routes/chat.route.ts:13-18 | the conversation's mode is replaced by the requested one exactly when a non-empty mode is given; nothing else changes |
| ChatRoute.Answer | apps/api/src/routes/chat.route.ts:13-34 | the mode switch, then the turn; the answer is the reply computed over the switched conversation |
| ChatRoute.RequestedModePrompts | apps/api/src/routes/chat.route.ts:13-28 | the mode a body names is the one whose instructions open the prompt |
| ConversationsRoute.PostConversations | apps/api/src/routes/conversations.route.ts:4-23 | upserts the `web_default` user and always creates a new web conversation under a fresh id: no external id, title defaulting to "Web chat", mode defaulting to "generic"; it returns that id and mode and stores no message |
| ConversationsRoute.PostTwice | apps/api/src/routes/conversations.route.ts:7-20 | two requests create two distinct conversations owned by the one web user |

## Left out

- The model call (`GoogleGenAI.generateContent`) is the parameter `gen`. `gen` is a deterministic function of the prompt, so two calls with the same prompt give the same outcome. The model name and the thinking budget it is configured with are not modelled.
- The database and its schema are out of scope, and so are the random ids the database assigns. Ids come from a counter; all the handlers rely on is that a new id is unused. The schema's defaults for a new conversation are the store's `defaults` parameter.
- Message timestamps: the store keeps messages in creation order. "Newest first" is position, so two messages with the same timestamp have no tie to break.
- Concurrency: two requests on the same conversation may interleave their reads and writes in the program. The model runs each handler as one atomic step.
- The Telegram transport is not modelled: polling, `getMe`, message delivery and the failures of `sendMessage`. The bot's username is a parameter, and the texts sent are the handlers' results.
- Command dispatch by regular expression is not modelled. The commands arrive already matched, with the captured word. A `/mode` with a word other than generic or mikrotik matches no command pattern, and the plain-message handler ignores text starting with "/", so nothing happens; `OnMode` therefore receives only a recognised word or none.
- `POST /chat` has no error handler. A failure of the model call (including a missing API key) propagates to the framework, and the user's message stays stored. The intended behaviour was an apology answered with status 200, but the code does not do that. The model follows the code: `Raised`.
- Failures of the store itself are not modelled; every store call succeeds.
- The schema's column type for `domainMode` is not part of this model. A mode other than "generic" or "mikrotik" sent to `POST /chat` or `POST /conversations` is stored as given; the program may instead fail that update or create if the column is an enumeration.
- JavaScript strings are sequences of UTF-16 code units; the model's strings are sequences of Unicode characters. So `splitIntoChunks` counts characters here and code units in the program, and the two differ for characters outside the Basic Multilingual Plane.
- Gemini.SplitIntoChunks: requires `max > 0`. With `max` 0 the loop of the program never ends on non-empty text; every caller uses the default 3800.
- `users.route.ts`, `health.route.ts` and the environment loading and server start-up are not part of this model. The web interface is not part of this model either.
