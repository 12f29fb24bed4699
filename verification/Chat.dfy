/** Chat Completions responses (internal/normalize/openai/chat.go, chat_stream.go and `mapContent` of items.go).

    `ReassembleChatSSE` rebuilds a reply from its delta chunks in one pass; `Reassembled` says what it must
    compute from the text pieces, the finish reasons and, for each tool index, that tool's deltas alone. */
module Chat {
  import opened Options
  import opened Neutral
  import Sse
  import opened Sequences

  // ----- decoded wire values -----

  datatype ContentPart = ContentPart(kind: string, text: string)
  datatype ChatContent = Missing | Null | Str(s: string) | Parts(parts: seq<ContentPart>) | Other
  datatype ChatToolCall = ChatToolCall(id: string, name: string, arguments: string)
  datatype ChatMessage = ChatMessage(role: string, content: ChatContent, toolCalls: seq<ChatToolCall>, toolCallId: string)

  datatype ChatUsage = ChatUsage(promptTokens: int, completionTokens: int, totalTokens: int) {
    function ToNeutral(): Option<Usage> {
      if promptTokens == 0 && completionTokens == 0 && totalTokens == 0 then None
      else Some(Usage(promptTokens, completionTokens,
                      if totalTokens == 0 then Int64(promptTokens + completionTokens) else totalTokens, None))
    }
  }

  datatype ChatChoice = ChatChoice(message: ChatMessage, finishReason: string)
  datatype ChatReply = ChatReply(model: string, choices: seq<ChatChoice>, usage: ChatUsage)

  datatype ToolDelta = ToolDelta(index: int, id: string, name: string, arguments: string)
  datatype ChunkChoice = ChunkChoice(content: string, toolCalls: seq<ToolDelta>, finishReason: string)
  datatype Chunk = Chunk(model: string, choices: seq<ChunkChoice>, usage: Option<ChatUsage>)

  // ----- the single-reply form -----

  function MapPart(p: ContentPart): ContentBlock {
    if p.kind in {"input_text", "output_text", "text", "summary_text"} then Plain(Text, p.text)
    else if p.kind in {"input_image", "output_image", "image_url"} then Plain(Image, "")
    else Plain(Unknown, "")
  }

  function MapParts(parts: seq<ContentPart>): seq<ContentBlock> {
    if parts == [] then [] else [MapPart(parts[0])] + MapParts(parts[1..])
  }

  function MapContent(content: ChatContent): seq<ContentBlock> {
    match content
    case Missing => []
    case Null => [Plain(Text, "")]
    case Str(s) => [Plain(Text, s)]
    case Parts(parts) => MapParts(parts)
    case Other => [Plain(Unknown, "")]
  }

  function CallBlock(c: ToolCall): ContentBlock {
    ContentBlock(ToolUse, "", Some(c), None)
  }

  function CallBlocks(cs: seq<ToolCall>): seq<ContentBlock> {
    if cs == [] then [] else [CallBlock(cs[0])] + CallBlocks(cs[1..])
  }

  function MapCalls(cs: seq<ChatToolCall>, valid: string -> bool): (r: seq<ToolCall>)
    ensures |r| == |cs|
    ensures forall k :: 0 <= k < |cs| ==> r[k] == ToolCall(cs[k].id, cs[k].name, SafeRawJSON(cs[k].arguments, valid))
  {
    if cs == [] then []
    else [ToolCall(cs[0].id, cs[0].name, SafeRawJSON(cs[0].arguments, valid))] + MapCalls(cs[1..], valid)
  }

  function MapChatMessage(m: ChatMessage, valid: string -> bool): Message {
    if m.role == "tool" then
      Message(m.role, [ContentBlock(ToolOutput, "", None, Some(ToolResult(m.toolCallId, MapContent(m.content), false)))])
    else
      Message(m.role, MapContent(m.content) + CallBlocks(MapCalls(m.toolCalls, valid)))
  }

  /** `buildChatResponse` for the one message both callers pass. */
  function ResponseOf(msg: Message, finish: string, usage: Option<Usage>): Response {
    Response([msg], Concat(Texts(msg.content)), Calls(msg.content), usage, finish)
  }

  /** `parseChatResponse` on a body that decodes and is not a stream. */
  function ParseChatReply(r: ChatReply, valid: string -> bool): Option<(Response, string)> {
    if r.choices == [] then None
    else
      var ch := r.choices[0];
      Some((ResponseOf(MapChatMessage(ch.message, valid).(role := "assistant"), ch.finishReason, r.usage.ToNeutral()), r.model))
  }

  // ----- the streamed form, piece by piece -----

  /** All choices of all chunks, in order. */
  function Choices(chunks: seq<Chunk>): seq<ChunkChoice> {
    if chunks == [] then [] else Choices(chunks[..|chunks| - 1]) + chunks[|chunks| - 1].choices
  }

  function TextOf(cs: seq<ChunkChoice>): string {
    if cs == [] then "" else TextOf(cs[..|cs| - 1]) + cs[|cs| - 1].content
  }

  function FinishOf(cs: seq<ChunkChoice>): string {
    if cs == [] then ""
    else if cs[|cs| - 1].finishReason != "" then cs[|cs| - 1].finishReason
    else FinishOf(cs[..|cs| - 1])
  }

  function Deltas(cs: seq<ChunkChoice>): seq<ToolDelta> {
    if cs == [] then [] else Deltas(cs[..|cs| - 1]) + cs[|cs| - 1].toolCalls
  }

  function ModelOf(chunks: seq<Chunk>): string {
    if chunks == [] then ""
    else if chunks[|chunks| - 1].model != "" then chunks[|chunks| - 1].model
    else ModelOf(chunks[..|chunks| - 1])
  }

  function UsageOf(chunks: seq<Chunk>): Option<Usage> {
    if chunks == [] then None
    else if chunks[|chunks| - 1].usage.Some? then chunks[|chunks| - 1].usage.value.ToNeutral()
    else UsageOf(chunks[..|chunks| - 1])
  }

  /** The tool indices in order of first appearance. */
  function FirstSeen(ds: seq<ToolDelta>): seq<int> {
    if ds == [] then []
    else
      var seen := FirstSeen(ds[..|ds| - 1]);
      if ds[|ds| - 1].index in seen then seen else seen + [ds[|ds| - 1].index]
  }

  /** The deltas of tool `i`. */
  function OfTool(ds: seq<ToolDelta>, i: int): seq<ToolDelta> {
    if ds == [] then []
    else if ds[|ds| - 1].index == i then OfTool(ds[..|ds| - 1], i) + [ds[|ds| - 1]]
    else OfTool(ds[..|ds| - 1], i)
  }

  function IdOf(ds: seq<ToolDelta>): string {
    if ds == [] then "" else if ds[|ds| - 1].id != "" then ds[|ds| - 1].id else IdOf(ds[..|ds| - 1])
  }

  function NameOf(ds: seq<ToolDelta>): string {
    if ds == [] then "" else if ds[|ds| - 1].name != "" then ds[|ds| - 1].name else NameOf(ds[..|ds| - 1])
  }

  function ArgumentsOf(ds: seq<ToolDelta>): string {
    if ds == [] then "" else ArgumentsOf(ds[..|ds| - 1]) + ds[|ds| - 1].arguments
  }

  function CallOf(ds: seq<ToolDelta>, i: int, valid: string -> bool): ToolCall {
    var sub := OfTool(ds, i);
    ToolCall(IdOf(sub), NameOf(sub), SafeRawJSON(ArgumentsOf(sub), valid))
  }

  function CallsOf(ds: seq<ToolDelta>, order: seq<int>, valid: string -> bool): (r: seq<ToolCall>)
    ensures |r| == |order| && forall k :: 0 <= k < |order| ==> r[k] == CallOf(ds, order[k], valid)
  {
    if order == [] then [] else [CallOf(ds, order[0], valid)] + CallsOf(ds, order[1..], valid)
  }

  function TextBlocks(text: string): seq<ContentBlock> {
    if text != "" then [Plain(Text, text)] else []
  }

  function Reassembled(chunks: seq<Chunk>, valid: string -> bool): (Response, string) {
    var cs := Choices(chunks);
    var content := TextBlocks(TextOf(cs)) + CallBlocks(CallsOf(Deltas(cs), FirstSeen(Deltas(cs)), valid));
    (ResponseOf(Message("assistant", content), FinishOf(cs), UsageOf(chunks)), ModelOf(chunks))
  }

  // ----- the one-pass implementation -----

  /** What the three tool variables hold for index `i`. */
  ghost predicate TracksTool(calls: map<int, (string, string)>, args: map<int, string>, order: seq<int>, ds: seq<ToolDelta>, i: int) {
    var sub := OfTool(ds, i);
    && (i in calls <==> i in order) && (i in args <==> i in order) && (i !in order ==> sub == [])
    && (i in calls ==> calls[i] == (IdOf(sub), NameOf(sub)))
    && (i in args ==> args[i] == ArgumentsOf(sub))
  }

  /** The tool variables hold what the deltas seen so far amount to. */
  ghost predicate Tracks(calls: map<int, (string, string)>, args: map<int, string>, order: seq<int>, ds: seq<ToolDelta>) {
    order == FirstSeen(ds) && forall i :: TracksTool(calls, args, order, ds, i)
  }

  lemma ToolSnoc(ds: seq<ToolDelta>, d: ToolDelta, i: int)
    ensures OfTool(ds + [d], i) == if d.index == i then OfTool(ds, i) + [d] else OfTool(ds, i)
    ensures FirstSeen(ds + [d]) == if d.index in FirstSeen(ds) then FirstSeen(ds) else FirstSeen(ds) + [d.index]
  {
    assert (ds + [d])[..|ds|] == ds;
  }

  lemma PartsSnoc(ds: seq<ToolDelta>, d: ToolDelta)
    ensures IdOf(ds + [d]) == if d.id != "" then d.id else IdOf(ds)
    ensures NameOf(ds + [d]) == if d.name != "" then d.name else NameOf(ds)
    ensures ArgumentsOf(ds + [d]) == ArgumentsOf(ds) + d.arguments
  {
    assert (ds + [d])[..|ds|] == ds;
  }

  /** The body of the innermost loop. */
  method OnToolDelta(calls: map<int, (string, string)>, args: map<int, string>, order: seq<int>, tc: ToolDelta, ghost ds: seq<ToolDelta>)
    returns (calls': map<int, (string, string)>, args': map<int, string>, order': seq<int>)
    requires Tracks(calls, args, order, ds)
    ensures Tracks(calls', args', order', ds + [tc])
  {
    calls', args', order' := calls, args, order;
    assert TracksTool(calls, args, order, ds, tc.index);
    if tc.index !in calls' {
      calls' := calls'[tc.index := (tc.id, tc.name)];
      order' := order' + [tc.index];
    }
    if tc.id != "" {
      calls' := calls'[tc.index := (tc.id, calls'[tc.index].1)];
    }
    if tc.name != "" {
      calls' := calls'[tc.index := (calls'[tc.index].0, tc.name)];
    }
    var soFar := if tc.index in args' then args'[tc.index] else "";
    args' := args'[tc.index := soFar + tc.arguments];
    ToolSnoc(ds, tc, tc.index);
    PartsSnoc(OfTool(ds, tc.index), tc);
    forall i ensures TracksTool(calls', args', order', ds + [tc], i) {
      assert TracksTool(calls, args, order, ds, i);
      ToolSnoc(ds, tc, i);
    }
  }

  lemma ChoicesSnoc(chunks: seq<Chunk>, c: Chunk)
    ensures Choices(chunks + [c]) == Choices(chunks) + c.choices
    ensures ModelOf(chunks + [c]) == if c.model != "" then c.model else ModelOf(chunks)
    ensures UsageOf(chunks + [c]) == if c.usage.Some? then c.usage.value.ToNeutral() else UsageOf(chunks)
  {
    assert (chunks + [c])[..|chunks|] == chunks;
  }

  lemma ChoiceSnoc(cs: seq<ChunkChoice>, c: ChunkChoice)
    ensures TextOf(cs + [c]) == TextOf(cs) + c.content
    ensures FinishOf(cs + [c]) == if c.finishReason != "" then c.finishReason else FinishOf(cs)
    ensures Deltas(cs + [c]) == Deltas(cs) + c.toolCalls
  {
    assert (cs + [c])[..|cs|] == cs;
  }

  method ReassembleChatSSE(body: string, decode: string -> Option<Chunk>, valid: string -> bool)
    returns (resp: Response, model: string)
    ensures (resp, model) == Reassembled(Sse.Decoded(Sse.Parsed(body), decode), valid)
  {
    model := "";
    var finish, text := "", "";
    var usage: Option<Usage> := None;
    var calls: map<int, (string, string)> := map[];
    var args: map<int, string> := map[];
    var order: seq<int> := [];
    var evs := Sse.ParseSSE(body);
    ghost var seen: seq<Chunk> := [];
    for k := 0 to |evs|
      invariant seen + Sse.Decoded(evs[k..], decode) == Sse.Decoded(evs, decode)
      invariant model == ModelOf(seen) && usage == UsageOf(seen)
      invariant text == TextOf(Choices(seen)) && finish == FinishOf(Choices(seen))
      invariant Tracks(calls, args, order, Deltas(Choices(seen)))
    {
      Sse.DecodedStep(seen, evs, k, decode);
      var decoded := decode(evs[k].data);
      if decoded == None {
        continue;
      }
      var d := decoded.value;
      ChoicesSnoc(seen, d);
      if d.model != "" {
        model := d.model;
      }
      if d.usage.Some? {
        usage := d.usage.value.ToNeutral();
      }
      ghost var cs := Choices(seen);
      TakeEnds(cs, d.choices);
      for j := 0 to |d.choices|
        invariant text == TextOf(cs + d.choices[..j]) && finish == FinishOf(cs + d.choices[..j])
        invariant Tracks(calls, args, order, Deltas(cs + d.choices[..j]))
      {
        var c := d.choices[j];
        ghost var before := cs + d.choices[..j];
        ChoiceSnoc(before, c);
        TakeSnoc(cs, d.choices, j);
        text := text + c.content;
        if c.finishReason != "" {
          finish := c.finishReason;
        }
        calls, args, order := OnToolDeltas(calls, args, order, c.toolCalls, Deltas(before));
      }
      seen := seen + [d];
    }
    assert seen + Sse.Decoded([], decode) == seen;

    var content := FinishContent(text, calls, args, order, Deltas(Choices(seen)), valid);
    resp := BuildChatResponse(Message("assistant", content), finish, usage);
  }

  /** The loop over one choice's tool deltas. */
  method OnToolDeltas(calls: map<int, (string, string)>, args: map<int, string>, order: seq<int>, tcs: seq<ToolDelta>, ghost ds: seq<ToolDelta>)
    returns (calls': map<int, (string, string)>, args': map<int, string>, order': seq<int>)
    requires Tracks(calls, args, order, ds)
    ensures Tracks(calls', args', order', ds + tcs)
  {
    calls', args', order' := calls, args, order;
    TakeEnds(ds, tcs);
    for t := 0 to |tcs|
      invariant Tracks(calls', args', order', ds + tcs[..t])
    {
      calls', args', order' := OnToolDelta(calls', args', order', tcs[t], ds + tcs[..t]);
      TakeSnoc(ds, tcs, t);
    }
  }

  /** The content of the assistant message: the text when there is any, then the calls in order. */
  method FinishContent(text: string, calls: map<int, (string, string)>, args: map<int, string>, order: seq<int>,
                       ghost ds: seq<ToolDelta>, valid: string -> bool)
    returns (content: seq<ContentBlock>)
    requires Tracks(calls, args, order, ds)
    ensures content == TextBlocks(text) + CallBlocks(CallsOf(ds, FirstSeen(ds), valid))
  {
    content := [];
    if text != "" {
      content := content + [Plain(Text, text)];
    }
    ghost var all := CallsOf(ds, order, valid);
    TakeEnds([], all);
    assert TextBlocks(text) + CallBlocks([]) == TextBlocks(text);
    for k := 0 to |order|
      invariant content == TextBlocks(text) + CallBlocks(all[..k])
    {
      var idx := order[k];
      assert TracksTool(calls, args, order, ds, idx);
      var tc := ToolCall(calls[idx].0, calls[idx].1, SafeRawJSON(args[idx], valid));
      CallBlocksSnoc(all[..k], tc);
      TakeSnoc([], all, k);
      Assoc(TextBlocks(text), CallBlocks(all[..k]), [CallBlock(tc)]);
      content := content + [CallBlock(tc)];
    }
  }

  lemma {:induction false} CallBlocksSnoc(cs: seq<ToolCall>, c: ToolCall)
    ensures CallBlocks(cs + [c]) == CallBlocks(cs) + [CallBlock(c)]
  {
    if cs == [] {
      assert cs + [c] == [c];
    } else {
      assert (cs + [c])[1..] == cs[1..] + [c];
      CallBlocksSnoc(cs[1..], c);
    }
  }

  method BuildChatResponse(msg: Message, finish: string, usage: Option<Usage>) returns (resp: Response)
    ensures resp == ResponseOf(msg, finish, usage)
  {
    var blocks := msg.content;
    var text: seq<string> := [];
    var calls: seq<ToolCall> := [];
    for i := 0 to |blocks|
      invariant text == Texts(blocks[..i]) && calls == Calls(blocks[..i])
    {
      var b := blocks[i];
      TextsAndCallsSnoc(blocks[..i], b);
      assert blocks[..i] + [b] == blocks[..i + 1];
      if b.kind == Text {
        text := text + [b.text];
      } else if b.kind == ToolUse {
        if b.toolCall.Some? {
          calls := calls + [b.toolCall.value];
        }
      }
    }
    assert blocks[..|blocks|] == blocks;
    resp := Response([msg], Concat(text), calls, usage, finish);
  }
}
