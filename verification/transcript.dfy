/** The chat message records both services keep: `{"role": ..., "content": ...}`. */
module Transcript {

  datatype Role = System | User | Assistant

  /** The role as the services spell it in the message dictionaries. */
  function RoleName(r: Role): string {
    match r
    case System => "system"
    case User => "user"
    case Assistant => "assistant"
  }

  datatype Message = Message(role: Role, content: string)

  type History = seq<Message>
}
