/** The provider-neutral response model (internal/normalize/envelope.go) and the JSON helper the
    providers share (internal/normalize/shared/json.go).  `Raw` is not modelled. */
module Neutral {
  import opened Options
  import Text

  datatype BlockType = Text | Reasoning | ToolUse | ToolOutput | Image | Unknown

  /** JSON text, or nothing. */
  type RawJson = Option<string>

  datatype ToolCall = ToolCall(id: string, name: string, arguments: RawJson)
  datatype ToolResult = ToolResult(toolCallId: string, content: seq<ContentBlock>, isError: bool)
  datatype ContentBlock = ContentBlock(kind: BlockType, text: string, toolCall: Option<ToolCall>, toolResult: Option<ToolResult>)
  datatype Message = Message(role: string, content: seq<ContentBlock>)

  /** `cache` is the pair kept in the Extra map: cache creation and cache read tokens. */
  datatype Usage = Usage(inputTokens: int, outputTokens: int, totalTokens: int, cache: Option<(int, int)>)

  datatype Response = Response(output: seq<Message>, finalText: string, toolCalls: seq<ToolCall>,
                               usage: Option<Usage>, stopReason: string)

  /** Go's int64 addition wraps around. */
  function Int64(n: int): int {
    (n + 0x8000_0000_0000_0000) % 0x1_0000_0000_0000_0000 - 0x8000_0000_0000_0000
  }

  /** The sum as 64 bits hold it: in range, and right but for a multiple of the modulus. */
  lemma Int64Wraps(n: int)
    ensures -0x8000_0000_0000_0000 <= Int64(n) < 0x8000_0000_0000_0000
    ensures (Int64(n) - n) % 0x1_0000_0000_0000_0000 == 0
    ensures -0x8000_0000_0000_0000 <= n < 0x8000_0000_0000_0000 ==> Int64(n) == n
  {
  }

  /** The text as JSON when it is valid JSON; validity is decided by the JSON library. */
  function SafeRawJSON(text: string, valid: string -> bool): RawJson {
    if text == "" || !valid(text) then None else Some(text)
  }

  function Plain(kind: BlockType, text: string): ContentBlock {
    ContentBlock(kind, text, None, None)
  }

  function Concat(parts: seq<string>): string {
    if parts == [] then "" else parts[0] + Concat(parts[1..])
  }

  lemma {:induction false} ConcatIsJoin(parts: seq<string>)
    ensures Concat(parts) == Text.Join(parts, "")
  {
    if parts != [] {
      ConcatIsJoin(parts[1..]);
      assert parts[0] + "" == parts[0];
    }
  }

  /** The texts of the text blocks, in order. */
  function Texts(blocks: seq<ContentBlock>): seq<string> {
    if blocks == [] then []
    else if blocks[0].kind == Text then [blocks[0].text] + Texts(blocks[1..])
    else Texts(blocks[1..])
  }

  /** The calls of the tool-call blocks, in order. */
  function Calls(blocks: seq<ContentBlock>): seq<ToolCall> {
    if blocks == [] then []
    else if blocks[0].kind == ToolUse && blocks[0].toolCall.Some? then [blocks[0].toolCall.value] + Calls(blocks[1..])
    else Calls(blocks[1..])
  }

  lemma {:induction false} TextsAndCallsSnoc(blocks: seq<ContentBlock>, b: ContentBlock)
    ensures Texts(blocks + [b]) == Texts(blocks) + if b.kind == Text then [b.text] else []
    ensures Calls(blocks + [b]) == Calls(blocks) + if b.kind == ToolUse && b.toolCall.Some? then [b.toolCall.value] else []
  {
    if blocks == [] {
      assert blocks + [b] == [b];
    } else {
      assert (blocks + [b])[1..] == blocks[1..] + [b];
      TextsAndCallsSnoc(blocks[1..], b);
    }
  }
}
