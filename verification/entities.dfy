/** The persisted records of the conversation store: users, conversations and messages. */
module Entities {
  import opened Wrappers

  /** Who wrote a message. */
  datatype Role = UserRole | AssistantRole | SystemRole

  /** The transport a conversation belongs to. */
  datatype Channel = Web | Telegram

  datatype User = User(id: string, name: string, username: string, email: string)

  /**
   * A conversation. `externalChatId` is the bot's chat id as text (absent for
   * web conversations); `domainMode` selects the system instructions
   * ("generic" or "mikrotik"; the model stores whatever string a route passes).
   */
  datatype Conversation = Conversation(
    id: string,
    userId: string,
    channel: Channel,
    externalChatId: Option<string>,
    title: string,
    isActive: bool,
    domainMode: string)

  /** A stored message; the store keeps them in creation order. */
  datatype Message = Message(conversationId: string, role: Role, content: string)

  /**
   * The values the database schema gives a conversation whose creation does
   * not set `isActive` or `domainMode` (the schema itself is not part of this
   * model; the intended defaults are inactive and "generic").
   */
  datatype SchemaDefaults = SchemaDefaults(isActive: bool, domainMode: string)
}
