/** The durable chat message and its parts. */
module Chat {
  import opened Text

  datatype ToolCall = ToolCall(
    id: string, kind: string, name: string, arguments: string, extra: map<string, string>)

  /** The six-field durable receipt of an attachment. */
  datatype Receipt = Receipt(
    id: string, filename: string, contentType: string, sizeBytes: int, sha256: string, createdAt: int)

  type Extra = map<string, string>

  /** `itemID` is known only while the conversation log is being projected. */
  datatype ChatMessage = ChatMessage(
    role: string, content: string, name: string, toolCallID: string, toolCalls: seq<ToolCall>,
    attachments: seq<Receipt>, extra: Extra, itemID: string)

  const SYNTHETIC_KIND_KEY := "app_studio_synthetic_message_kind"
  const MUTATION_EVIDENCE := "workspace_mutation_evidence"

  /**
    Stands for the fixed text that opens every compaction summary; only that it is fixed
    and non-empty matters here, so it is cut to its first words.
   */
  const SUMMARY_PREAMBLE := "Another language model"

  predicate IsEvidence(extra: Extra)
  {
    SYNTHETIC_KIND_KEY in extra && extra[SYNTHETIC_KIND_KEY] == MUTATION_EVIDENCE
  }

  /** Only the provenance of synthetic evidence survives in durable state. */
  function DurableExtra(extra: Extra): (d: Extra)
    ensures IsEvidence(d) <==> IsEvidence(extra)
  {
    if IsEvidence(extra) then map[SYNTHETIC_KIND_KEY := MUTATION_EVIDENCE] else map[]
  }

  /** cloneChatMessages, one message. */
  function Clone(m: ChatMessage): ChatMessage
  {
    m.(extra := DurableExtra(m.extra))
  }

  function CloneAll(messages: seq<ChatMessage>): (r: seq<ChatMessage>)
    ensures |r| == |messages|
    ensures forall i :: 0 <= i < |r| ==> r[i] == Clone(messages[i])
  {
    if messages == [] then [] else [Clone(messages[0])] + CloneAll(messages[1..])
  }

  predicate IsTool(m: ChatMessage) { EqualFold(Trim(m.role), "tool") }

  predicate IsAssistant(m: ChatMessage) { EqualFold(Trim(m.role), "assistant") }
}
