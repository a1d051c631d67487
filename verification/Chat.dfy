/** Chat messages and their rough token weight (src/llm.rs). */
module Chat {
  import opened Wrappers

  datatype Role = System | User | Assistant | Tool

  /** `arguments` is the serialised JSON of the call. */
  datatype ToolCall = ToolCall(id: string, name: string, arguments: string)

  datatype Message = Message(
    role: Role,
    content: string,
    images: seq<string>,
    toolCalls: seq<ToolCall>,
    toolCallId: Option<string>,
    reasoning: Option<string>,
    finishReason: Option<string>)

  function SystemMessage(content: string): Message {
    Message(System, content, [], [], None, None, None)
  }

  function UserMessage(content: string): Message {
    Message(User, content, [], [], None, None, None)
  }

  function AssistantMessage(content: string, calls: seq<ToolCall>): Message {
    Message(Assistant, content, [], calls, None, None, None)
  }

  function ToolResult(id: string, content: string): Message {
    Message(Tool, content, [], [], Some(id), None, None)
  }

  /** Length in bytes of the UTF-8 encoding: what a Rust string calls its length. */
  function Utf8Length(s: string): nat {
    if s == [] then 0 else Utf8Width(s[0]) + Utf8Length(s[1..])
  }

  function Utf8Width(c: char): nat {
    if c < '\U{0080}' then 1 else if c < '\U{0800}' then 2 else if c < '\U{10000}' then 3 else 4
  }

  lemma {:induction false} Utf8LengthConcat(a: string, b: string)
    ensures Utf8Length(a + b) == Utf8Length(a) + Utf8Length(b)
  {
    if a == [] {
      assert a + b == b;
    } else {
      assert (a + b)[1..] == a[1..] + b;
      Utf8LengthConcat(a[1..], b);
    }
  }

  /** Total bytes of the serialised arguments of all the calls. */
  function ArgumentBytes(calls: seq<ToolCall>): nat {
    if calls == [] then 0 else Utf8Length(calls[0].arguments) + ArgumentBytes(calls[1..])
  }

  /** Four bytes are about one token, one image is about 1024. */
  function RoughTokens(m: Message): nat {
    var reasoningBytes := if m.reasoning.Some? then Utf8Length(m.reasoning.value) else 0;
    (Utf8Length(m.content) + reasoningBytes + ArgumentBytes(m.toolCalls)) / 4 + |m.images| * 1024
  }

  /** Weight of a whole history. */
  function TotalTokens(h: seq<Message>): nat {
    if h == [] then 0 else RoughTokens(h[0]) + TotalTokens(h[1..])
  }
}
