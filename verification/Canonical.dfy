/** The dialect-independent request: turns made of content blocks
    (`crates/oag-proto/src/canonical.rs`). */
module Canonical {
  import opened Bytes
  import opened JsonTree

  datatype Role = System | User | Assistant | Tool

  datatype ContentBlock =
    | TextBlock(text: Text)
    | Image(mediaType: Text, data: Text)
    | ToolUse(id: Text, name: Text, input: Json)
    | ToolResult(toolUseId: Text, content: ToolResultContent, isError: bool)
    | Thinking(thought: Text)

  datatype ToolResultContent = Words(words: Text) | Blocks(blocks: seq<ContentBlock>)

  datatype Message = Message(role: Role, content: seq<ContentBlock>)
}
