/**
 * The exchange both the bot's message handler and `POST /chat` perform once
 * a message is accepted: store the user's text, ask the model with that
 * message already in the history, and store the answer when there is one.
 */
module Turns {
  import opened Wrappers
  import opened Entities
  import opened ConversationStore
  import Gemini

  /** The reply of a turn: the model is asked after the user's message is stored. */
  ghost function TurnReply(apiKey: string, conversations: map<string, Conversation>, messages: seq<Message>,
                           id: string, text: string, gen: Gemini.Generator): Result<string, Gemini.ReplyError>
  {
    Gemini.Reply(apiKey, conversations, messages + [Message(id, UserRole, text)], id, text,
                 Gemini.DefaultMaxHistory, gen)
  }

  /**
   * The messages after a turn: the earlier ones unchanged, then the user's
   * message, then the answer as an assistant message exactly when there is one.
   */
  function Stored(messages: seq<Message>, id: string, text: string,
                  reply: Result<string, Gemini.ReplyError>): (r: seq<Message>)
    ensures |r| == |messages| + (if reply.Success? then 2 else 1)
    ensures r[..|messages|] == messages
    ensures r[|messages|] == Message(id, UserRole, text)
    ensures reply.Success? ==> r[|messages| + 1] == Message(id, AssistantRole, reply.value)
  {
    match reply
    case Success(answer) => messages + [Message(id, UserRole, text), Message(id, AssistantRole, answer)]
    case Failure(_) => messages + [Message(id, UserRole, text)]
  }

  /** With an API key and a model that always answers, the turn succeeds. */
  lemma TurnSucceeds(apiKey: string, conversations: map<string, Conversation>, messages: seq<Message>,
                     id: string, text: string, gen: Gemini.Generator)
    requires apiKey != "" && forall p :: gen(p).Produced?
    ensures TurnReply(apiKey, conversations, messages, id, text, gen).Success?
  {
  }

  method Turn(store: Store, id: string, text: string, apiKey: string, gen: Gemini.Generator)
    returns (reply: Result<string, Gemini.ReplyError>)
    requires store.Valid() && id in store.conversations
    modifies store`messages
    ensures store.Valid()
    ensures reply == TurnReply(apiKey, store.conversations, old(store.messages), id, text, gen)
    ensures store.messages == Stored(old(store.messages), id, text, reply)
  {
    store.Append(Message(id, UserRole, text));
    reply := Gemini.GenerateReply(store, id, text, Gemini.DefaultMaxHistory, apiKey, gen);
    if reply.Success? {
      store.Append(Message(id, AssistantRole, reply.value));
    }
  }
}
