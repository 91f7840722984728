/** The message a model receives. */
module ModelMessages {
  import opened Wrappers
  import opened Chat

  datatype Role = System | User | Assistant | Tool

  /** The receipts recorded on a placeholder, as far as they can be read back. */
  datatype ReceiptList = Absent | Unreadable | Listed(receipts: seq<Receipt>)

  /**
    The attachment marks in a message's extra fields: `historical` on a durable
    placeholder, `current` on a transient message of the running turn.
   */
  datatype Marks = Marks(
    historical: bool, current: bool, id: Option<string>, filename: Option<string>, receipts: ReceiptList)

  const NO_MARKS := Marks(false, false, None, None, Absent)

  /** A part of a multimodal user message. */
  datatype Part = TextPart(text: string) | ImagePart(data: seq<int>, mimeType: string)

  /** A pointer to a message; Nil is the nil pointer. */
  datatype Message =
    | Nil
    | Message(role: Role, content: string, name: string, toolName: string, toolCallID: string,
              toolCalls: seq<ToolCall>, extra: Extra, marks: Marks, parts: seq<Part>)

  type Messages = seq<Message>

  predicate HasRole(m: Message, role: Role) { m.Message? && m.role == role }

  /** An assistant message that asks for tools. */
  predicate AsksTools(m: Message) { HasRole(m, Assistant) && m.toolCalls != [] }

  function UserMessage(content: string): Message
  {
    Message(User, content, "", "", "", [], map[], NO_MARKS, [])
  }
}
