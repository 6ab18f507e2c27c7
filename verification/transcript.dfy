/** A chat message and a transcript: a sequence of messages, oldest first. */
module Transcript {
  /** Role string of a message typed by the person chatting. */
  const USER: string := "user"
  /** Role string of a message produced by the model. */
  const ASSISTANT: string := "assistant"

  /** One `{role, content}` record. The role is kept as the string the record
      carries: the helpers compare it literally with "user" and "assistant". */
  datatype Message = Message(role: string, content: string)

  type Transcript = seq<Message>
}
