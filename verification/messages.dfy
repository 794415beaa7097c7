/** Conversation-history messages and how the chat script decides who said each one. */
module Messages {
  import opened Optional

  /** A history message: its `type` and `role` attributes and its text content.
      An attribute is None when the message lacks it or holds Python's None. */
  datatype Message = Message(kind: Option<string>, role: Option<string>, content: string)

  /** The messages the chat library creates, each tagged by its `type` attribute. */
  function HumanMessage(text: string): Message { Message(Some("human"), None, text) }
  function AiMessage(text: string): Message { Message(Some("ai"), None, text) }
  function SystemMessage(text: string): Message { Message(Some("system"), None, text) }

  /** Python truthiness of an optional string: present and non-empty. */
  predicate Truthy(a: Option<string>) { a.Some? && a.value != "" }

  /** `getattr(m, "type", None) or getattr(m, "role", "")`: the `type` attribute
      when it is truthy, otherwise the `role` attribute, otherwise "". A `role`
      holding None reads as "", which is unequal to every role the script tests. */
  function ResolvedRole(m: Message): (r: string)
    ensures Truthy(m.kind) ==> r == m.kind.value
    ensures !Truthy(m.kind) && r != "" ==> m.role == Some(r)
    ensures r == "" <==> !Truthy(m.kind) && !Truthy(m.role)
  {
    if Truthy(m.kind) then m.kind.value
    else if m.role.Some? then m.role.value
    else ""
  }

  /** Who a shown message belongs to. */
  datatype Speaker = User | Assistant {
    /** The role name the chat widget and the export use. */
    function Name(): string {
      match this
      case User => "user"
      case Assistant => "assistant"
    }
  }

  /** A message is shown and exported when it resolves to `human`, `ai` or `assistant`. */
  predicate Kept(m: Message) {
    ResolvedRole(m) in ["human", "ai", "assistant"]
  }

  /** `human` is the user; `ai` and `assistant` are the assistant. */
  function SpeakerOf(m: Message): Speaker
    requires Kept(m)
  {
    if ResolvedRole(m) == "human" then User else Assistant
  }
}
