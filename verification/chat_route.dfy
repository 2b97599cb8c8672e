/**
 * `POST /chat`: one turn of a web conversation. The body's fields are
 * optional as they arrive; a missing or empty `conversationId` or `text` is
 * rejected, an unknown conversation is not found, and otherwise the turn
 * stores the user's text, asks the model and stores and returns its answer.
 * The route has no error handler of its own: a failure of the model call
 * propagates to the framework after the user's message is stored.
 */
module ChatRoute {
  import opened Wrappers
  import opened Entities
  import opened ConversationStore
  import Gemini
  import Turns

  const MissingFieldsError: string := "conversationId e text são obrigatórios"
  const NotFoundError: string := "Conversation não encontrada"

  datatype ChatBody = ChatBody(conversationId: Option<string>, text: Option<string>, domainMode: Option<string>)

  /** What the route answers: an error status with its message, the answer, or the failure it lets escape. */
  datatype ChatResponse =
    | Rejected(status: nat, error: string)
    | Answered(answer: string)
    | Raised(failure: Gemini.ReplyError)

  /** A JavaScript truthiness test on an optional string: present and non-empty. */
  predicate Given(field: Option<string>)
    ensures Given(field) <==> field.GetOr("") != ""
  {
    field.Some? && field.value != ""
  }

  /** The conversation after the optional mode switch the body asks for. */
  function Switched(conv: Conversation, domainMode: Option<string>): (r: Conversation)
    ensures Given(domainMode) ==> r == conv.(domainMode := domainMode.value)
    ensures !Given(domainMode) ==> r == conv
  {
    if Given(domainMode) && domainMode.value != conv.domainMode then conv.(domainMode := domainMode.value)
    else conv
  }

  method PostChat(store: Store, body: ChatBody, apiKey: string, gen: Gemini.Generator)
    returns (response: ChatResponse)
    requires store.Valid()
    modifies store
    ensures store.Valid()
    ensures !(Given(body.conversationId) && Given(body.text)) ==>
              response == Rejected(400, MissingFieldsError) && unchanged(store)
    ensures Given(body.conversationId) && Given(body.text) && body.conversationId.value !in old(store.conversations) ==>
              response == Rejected(404, NotFoundError) && unchanged(store)
    ensures Given(body.conversationId) && Given(body.text) && body.conversationId.value in old(store.conversations) ==>
              var id := body.conversationId.value;
              var switched := old(store.conversations)[id := Switched(old(store.conversations)[id], body.domainMode)];
              var reply := Turns.TurnReply(apiKey, switched, old(store.messages), id, body.text.value, gen);
              && store.users == old(store.users)
              && store.conversations == switched
              && store.messages == Turns.Stored(old(store.messages), id, body.text.value, reply)
              && response == (if reply.Success? then Answered(reply.value) else Raised(reply.error))
  {
    if !(Given(body.conversationId) && Given(body.text)) {
      return Rejected(400, MissingFieldsError);
    }
    var id, text := body.conversationId.value, body.text.value;
    var found := store.FindConversation(id);
    if found.None? {
      return Rejected(404, NotFoundError);
    }
    response := Answer(store, id, text, body.domainMode, apiKey, gen);
  }

  /** A valid request for a stored conversation: the mode switch, then the turn, then the answer or the failure. */
  method Answer(store: Store, id: string, text: string, domainMode: Option<string>, apiKey: string,
                gen: Gemini.Generator)
    returns (response: ChatResponse)
    requires store.Valid() && id in store.conversations
    modifies store`conversations, store`messages
    ensures store.Valid()
    ensures var switched := old(store.conversations)[id := Switched(old(store.conversations)[id], domainMode)];
            var reply := Turns.TurnReply(apiKey, switched, old(store.messages), id, text, gen);
            && store.conversations == switched
            && store.messages == Turns.Stored(old(store.messages), id, text, reply)
            && response == (if reply.Success? then Answered(reply.value) else Raised(reply.error))
  {
    ChangeMode(store, id, store.conversations[id], domainMode);
    var reply := Turns.Turn(store, id, text, apiKey, gen);
    response := if reply.Success? then Answered(reply.value) else Raised(reply.error);
  }

  /** The mode update: only when the body names a non-empty mode other than the stored one. */
  method ChangeMode(store: Store, id: string, conv: Conversation, domainMode: Option<string>)
    requires store.Valid() && id in store.conversations && store.conversations[id] == conv
    modifies store`conversations
    ensures store.Valid()
    ensures store.conversations == old(store.conversations)[id := Switched(conv, domainMode)]
  {
    if Given(domainMode) && domainMode.value != conv.domainMode {
      store.SetDomainMode(id, domainMode.value);
    }
  }

  /**
   * The mode a body names is the mode the model is prompted with: after the
   * switch, the prompt's first turn carries that mode's instructions.
   */
  lemma RequestedModePrompts(conversations: map<string, Conversation>, messages: seq<Message>, id: string,
                             domainMode: Option<string>, text: string, maxHistory: nat)
    requires id in conversations && Given(domainMode)
    ensures Gemini.PromptFor(conversations[id := Switched(conversations[id], domainMode)], messages, id, text, maxHistory)[0]
              == Gemini.Content(Gemini.GeminiUser, Gemini.SystemFor(domainMode.value))
  {
  }
}
