/** Anthropic responses (internal/normalize/anthropic/response.go and blocks.go).

    A response arrives as one JSON message or as a stream of events.  `ReassembleSSE` rebuilds it from
    the stream in one pass over a map of accumulators.  `Reassembled` says what it must compute block by
    block, from the events of that block alone, so the order in which blocks are interleaved plays no part. */
module Anthropic {
  import opened Options
  import opened Neutral
  import Sse

  // ----- decoded wire values -----

  /** A content value as encoding/json sees it: missing, null, a string, an array of blocks, or anything else. */
  datatype WireContent = Missing | Null | Str(s: string) | Blocks(blocks: seq<WireBlock>) | Other

  datatype WireBlock = WireBlock(kind: string, text: string, thinking: string, id: string, name: string, input: RawJson,
                                 toolUseId: string, content: WireContent, isError: bool)

  datatype WireUsage = WireUsage(inputTokens: int, outputTokens: int, cacheCreation: int, cacheRead: int) {
    function ToNeutral(): Usage {
      Usage(inputTokens, outputTokens, Int64(inputTokens + outputTokens),
            if cacheCreation != 0 || cacheRead != 0 then Some((cacheCreation, cacheRead)) else None)
    }
  }

  datatype WireMessage = WireMessage(model: string, content: WireContent, stopReason: string, usage: WireUsage)

  datatype Delta = TextDelta(text: string) | ThinkingDelta(thinking: string) | InputJsonDelta(partial: string) | OtherDelta

  datatype Event =
    | MessageStart(model: string, usage: WireUsage)
    | BlockStart(index: int, block: WireBlock)
    | BlockDelta(index: int, delta: Delta)
    | MessageDelta(stopReason: string, outputTokens: int)
    | OtherEvent

  // ----- blocks.go -----

  function ParseBlocks(content: WireContent): seq<ContentBlock> {
    match content
    case Missing => []
    case Null => [Plain(Text, "")]
    case Str(s) => [Plain(Text, s)]
    case Blocks(blocks) => MapBlocks(blocks)
    case Other => [Plain(Unknown, "")]
  }

  function MapBlocks(blocks: seq<WireBlock>): (r: seq<ContentBlock>)
    ensures |r| == |blocks| && forall i :: 0 <= i < |blocks| ==> r[i] == MapBlock(blocks[i])
  {
    if blocks == [] then [] else [MapBlock(blocks[0])] + MapBlocks(blocks[1..])
  }

  function MapBlock(b: WireBlock): ContentBlock {
    if b.kind == "text" then Plain(Text, b.text)
    else if b.kind == "thinking" || b.kind == "redacted_thinking" then Plain(Reasoning, b.thinking)
    else if b.kind == "tool_use" then ContentBlock(ToolUse, "", Some(ToolCall(b.id, b.name, b.input)), None)
    else if b.kind == "tool_result" then
      ContentBlock(ToolOutput, "", None, Some(ToolResult(b.toolUseId, ParseBlocks(b.content), b.isError)))
    else if b.kind == "image" then Plain(Image, "")
    else Plain(Unknown, "")
  }

  // ----- the single-message form -----

  method BuildResponse(blocks: seq<ContentBlock>, stopReason: string, usage: Usage) returns (resp: Response)
    ensures resp == ResponseOf(blocks, stopReason, usage)
  {
    var output := if |blocks| > 0 then [Message("assistant", blocks)] else [];
    var text: seq<string> := [];
    var calls: seq<ToolCall> := [];
    for i := 0 to |blocks|
      invariant text == Texts(blocks[..i]) && calls == Calls(blocks[..i])
    {
      var b := blocks[i];
      TextsAndCallsSnoc(blocks[..i], b);
      assert blocks[..i] + [b] == blocks[..i + 1];
      if b.kind == Text {
        text := text + [b.text];
      } else if b.kind == ToolUse {
        if b.toolCall.Some? {
          calls := calls + [b.toolCall.value];
        }
      }
    }
    assert blocks[..|blocks|] == blocks;
    resp := Response(output, Concat(text), calls, Some(usage), stopReason);
  }

  function ResponseOf(blocks: seq<ContentBlock>, stopReason: string, usage: Usage): Response {
    Response(if |blocks| > 0 then [Message("assistant", blocks)] else [],
             Concat(Texts(blocks)), Calls(blocks), Some(usage), stopReason)
  }

  /** `parseJSONMessage` on a body that decodes. */
  function ParseJSONMessage(msg: WireMessage): (Response, string) {
    (ResponseOf(ParseBlocks(msg.content), msg.stopReason, msg.usage.ToNeutral()), msg.model)
  }

  // ----- the streamed form, block by block -----

  /** The indices of the started blocks, in order of their start events. */
  function Starts(es: seq<Event>): seq<int> {
    if es == [] then []
    else
      var e := es[|es| - 1];
      if e.BlockStart? then Starts(es[..|es| - 1]) + [e.index] else Starts(es[..|es| - 1])
  }

  predicate IsForBlock(e: Event, i: int) {
    (e.BlockStart? || e.BlockDelta?) && e.index == i
  }

  predicate IsForMessage(e: Event) {
    e.MessageStart? || e.MessageDelta?
  }

  /** The events of block `i`. */
  function BlockEvents(es: seq<Event>, i: int): seq<Event> {
    if es == [] then []
    else if IsForBlock(es[|es| - 1], i) then BlockEvents(es[..|es| - 1], i) + [es[|es| - 1]]
    else BlockEvents(es[..|es| - 1], i)
  }

  /** The message-level events. */
  function MessageEvents(es: seq<Event>): seq<Event> {
    if es == [] then []
    else if IsForMessage(es[|es| - 1]) then MessageEvents(es[..|es| - 1]) + [es[|es| - 1]]
    else MessageEvents(es[..|es| - 1])
  }

  datatype BlockAcc = BlockAcc(block: ContentBlock, json: string)

  function ApplyDelta(a: BlockAcc, d: Delta): BlockAcc {
    match d
    case TextDelta(t) => a.(block := a.block.(text := a.block.text + t))
    case ThinkingDelta(t) => a.(block := a.block.(text := a.block.text + t))
    case InputJsonDelta(p) => a.(json := a.json + p)
    case OtherDelta => a
  }

  /** What the events of one block amount to: nothing before its (last) start, then the deltas in order. */
  function Accumulated(sub: seq<Event>): Option<BlockAcc> {
    if sub == [] then None
    else
      match sub[|sub| - 1]
      case BlockStart(_, b) => Some(BlockAcc(MapBlock(b), ""))
      case BlockDelta(_, d) =>
        (match Accumulated(sub[..|sub| - 1])
         case None => None
         case Some(a) => Some(ApplyDelta(a, d)))
      case _ => Accumulated(sub[..|sub| - 1])
  }

  function Finished(a: BlockAcc, valid: string -> bool): ContentBlock {
    if a.block.kind == ToolUse && a.block.toolCall.Some? && |a.json| > 0 then
      a.block.(toolCall := Some(a.block.toolCall.value.(arguments := SafeRawJSON(a.json, valid))))
    else a.block
  }

  /** Model, stop reason and usage. */
  datatype Meta = Meta(model: string, stopReason: string, usage: Usage)

  const NO_META := Meta("", "", Usage(0, 0, 0, None))

  function ApplyMeta(m: Meta, e: Event): Meta {
    match e
    case MessageStart(model, usage) => m.(model := model, usage := usage.ToNeutral())
    case MessageDelta(stop, outTokens) =>
      var m' := if stop != "" then m.(stopReason := stop) else m;
      if outTokens != 0 then
        m'.(usage := m'.usage.(outputTokens := outTokens, totalTokens := Int64(m'.usage.inputTokens + outTokens)))
      else m'
    case _ => m
  }

  function MetaOf(es: seq<Event>): Meta {
    if es == [] then NO_META else ApplyMeta(MetaOf(es[..|es| - 1]), es[|es| - 1])
  }

  function BlockOf(es: seq<Event>, i: int, valid: string -> bool): ContentBlock {
    match Accumulated(BlockEvents(es, i))
    case Some(a) => Finished(a, valid)
    case None => Plain(Unknown, "")
  }

  function BlocksOf(es: seq<Event>, order: seq<int>, valid: string -> bool): (r: seq<ContentBlock>)
    ensures |r| == |order| && forall k :: 0 <= k < |order| ==> r[k] == BlockOf(es, order[k], valid)
  {
    if order == [] then [] else [BlockOf(es, order[0], valid)] + BlocksOf(es, order[1..], valid)
  }

  function Reassembled(es: seq<Event>, valid: string -> bool): (Response, string) {
    var m := MetaOf(MessageEvents(es));
    (ResponseOf(BlocksOf(es, Starts(es), valid), m.stopReason, m.usage), m.model)
  }

  // ----- the one-pass implementation -----

  lemma AccumulatedFrame(es: seq<Event>, e: Event, i: int)
    ensures BlockEvents(es + [e], i) == if IsForBlock(e, i) then BlockEvents(es, i) + [e] else BlockEvents(es, i)
    ensures MessageEvents(es + [e]) == if IsForMessage(e) then MessageEvents(es) + [e] else MessageEvents(es)
    ensures Starts(es + [e]) == if e.BlockStart? then Starts(es) + [e.index] else Starts(es)
  {
    assert (es + [e])[..|es|] == es;
  }

  ghost predicate Tracks(accs: map<int, BlockAcc>, es: seq<Event>) {
    forall i :: Accumulated(BlockEvents(es, i)) == if i in accs then Some(accs[i]) else None
  }

  /** What one event does to the accumulators. */
  function Track(accs: map<int, BlockAcc>, e: Event): map<int, BlockAcc> {
    match e
    case BlockStart(i, b) => accs[i := BlockAcc(MapBlock(b), "")]
    case BlockDelta(i, d) => if i in accs then accs[i := ApplyDelta(accs[i], d)] else accs
    case _ => accs
  }

  lemma TracksStep(accs: map<int, BlockAcc>, es: seq<Event>, e: Event)
    requires Tracks(accs, es)
    ensures Tracks(Track(accs, e), es + [e])
  {
    var accs' := Track(accs, e);
    forall i ensures Accumulated(BlockEvents(es + [e], i)) == if i in accs' then Some(accs'[i]) else None {
      AccumulatedFrame(es, e, i);
      var sub := BlockEvents(es, i);
      assert (sub + [e])[..|sub|] == sub;
    }
  }

  lemma {:induction false} StartedBlocksAccumulate(es: seq<Event>, i: int)
    ensures Accumulated(BlockEvents(es, i)).Some? <==> i in Starts(es)
  {
    if es != [] {
      var p, e := es[..|es| - 1], es[|es| - 1];
      StartedBlocksAccumulate(p, i);
      assert es == p + [e];
      AccumulatedFrame(p, e, i);
      var sub := BlockEvents(p, i);
      assert (sub + [e])[..|sub|] == sub;
    }
  }

  lemma MetaStep(es: seq<Event>, e: Event)
    ensures MetaOf(MessageEvents(es + [e])) == ApplyMeta(MetaOf(MessageEvents(es)), e)
  {
    AccumulatedFrame(es, e, 0);
    var ms := MessageEvents(es);
    assert (ms + [e])[..|ms|] == ms;
  }

  /** The `message_delta` case: a stop reason and an output count each replace the old one when present. */
  method OnMessageDelta(ghost model: string, stopReason: string, usage: Usage, stop: string, outTokens: int)
    returns (stopReason': string, usage': Usage)
    ensures Meta(model, stopReason', usage') == ApplyMeta(Meta(model, stopReason, usage), MessageDelta(stop, outTokens))
  {
    stopReason', usage' := stopReason, usage;
    if stop != "" {
      stopReason' := stop;
    }
    if outTokens != 0 {
      usage' := usage'.(outputTokens := outTokens);
      usage' := usage'.(totalTokens := Int64(usage'.inputTokens + usage'.outputTokens));
    }
  }

  lemma StartsSnoc(es: seq<Event>, e: Event)
    ensures Starts(es + [e]) == if e.BlockStart? then Starts(es) + [e.index] else Starts(es)
  {
    AccumulatedFrame(es, e, 0);
  }

  method ReassembleSSE(body: string, decode: string -> Option<Event>, valid: string -> bool)
    returns (resp: Response, model: string)
    ensures (resp, model) == Reassembled(Sse.Decoded(Sse.Parsed(body), decode), valid)
  {
    var evs := Sse.ParseSSE(body);
    var stopReason, usage, accs, order;
    model, stopReason, usage, accs, order := CollectEvents(evs, decode);
    var blocks := FinishBlocks(accs, order, Sse.Decoded(evs, decode), valid);
    resp := BuildResponse(blocks, stopReason, usage);
  }

  /** The loop over the events, from the variables' initial values. */
  method CollectEvents(evs: seq<Sse.SSEEvent>, decode: string -> Option<Event>)
    returns (model: string, stopReason: string, usage: Usage, accs: map<int, BlockAcc>, order: seq<int>)
    ensures var es := Sse.Decoded(evs, decode);
            Meta(model, stopReason, usage) == MetaOf(MessageEvents(es)) && order == Starts(es) && Tracks(accs, es)
  {
    model, stopReason := "", "";
    usage := Usage(0, 0, 0, None);
    accs, order := map[], [];
    ghost var seen: seq<Event> := [];
    for k := 0 to |evs|
      invariant seen + Sse.Decoded(evs[k..], decode) == Sse.Decoded(evs, decode)
      invariant Meta(model, stopReason, usage) == MetaOf(MessageEvents(seen))
      invariant order == Starts(seen)
      invariant Tracks(accs, seen)
    {
      Sse.DecodedStep(seen, evs, k, decode);
      var decoded := decode(evs[k].data);
      if decoded == None {
        continue;
      }
      var d := decoded.value;
      TracksStep(accs, seen, d);
      StartsSnoc(seen, d);
      MetaStep(seen, d);
      seen := seen + [d];
      match d {
        case MessageStart(m, u) =>
          model := m;
          usage := u.ToNeutral();
        case BlockStart(i, b) =>
          accs := accs[i := BlockAcc(MapBlock(b), "")];
          order := order + [i];
        case BlockDelta(i, delta) =>
          if i in accs {
            accs := accs[i := ApplyDelta(accs[i], delta)];
          }
        case MessageDelta(stop, outTokens) =>
          stopReason, usage := OnMessageDelta(model, stopReason, usage, stop, outTokens);
        case OtherEvent =>
      }
    }
    assert seen + Sse.Decoded([], decode) == seen;
  }

  /** The loop over `order` that takes each accumulator's block and fills in streamed tool arguments. */
  method FinishBlocks(accs: map<int, BlockAcc>, order: seq<int>, ghost seen: seq<Event>, valid: string -> bool)
    returns (blocks: seq<ContentBlock>)
    requires Tracks(accs, seen) && order == Starts(seen)
    ensures blocks == BlocksOf(seen, order, valid)
  {
    blocks := [];
    for k := 0 to |order|
      invariant |blocks| == k
      invariant forall j :: 0 <= j < k ==> blocks[j] == BlockOf(seen, order[j], valid)
    {
      StartedBlocksAccumulate(seen, order[k]);
      var a := accs[order[k]];
      if a.block.kind == ToolUse && a.block.toolCall.Some? && |a.json| > 0 {
        a := a.(block := a.block.(toolCall := Some(a.block.toolCall.value.(arguments := SafeRawJSON(a.json, valid)))));
      }
      blocks := blocks + [a.block];
    }
  }
}
