/** The streamed form of an Anthropic response means the same as the single-message form: for every message,
    every legal chunking of it and every interleaving of its blocks, reassembly gives `ParseJSONMessage`. */
module AnthropicRefinement {
  import opened Options
  import opened Neutral
  import opened Anthropic
  import opened AnthropicStreams
  import opened Sequences
  import Sse

  // ----- one block -----

  predicate AreDeltas(es: seq<Event>) {
    forall k :: 0 <= k < |es| ==> es[k].BlockDelta?
  }

  /** The text and thinking carried by the deltas, joined. */
  function TextOf(es: seq<Event>): string {
    if es == [] then ""
    else TextOf(es[..|es| - 1]) +
         match es[|es| - 1]
         case BlockDelta(_, TextDelta(t)) => t
         case BlockDelta(_, ThinkingDelta(t)) => t
         case _ => ""
  }

  /** The partial JSON carried by the deltas, joined. */
  function JsonOf(es: seq<Event>): string {
    if es == [] then ""
    else JsonOf(es[..|es| - 1]) +
         match es[|es| - 1]
         case BlockDelta(_, InputJsonDelta(p)) => p
         case _ => ""
  }

  /** One start of the block's type, then deltas only. */
  predicate IsBlockStream(sub: seq<Event>, kind: string) {
    sub != [] && sub[0].BlockStart? && sub[0].block.kind == kind && AreDeltas(sub[1..])
  }

  /** The deltas complete the started block to `b`. */
  predicate Completes(sub: seq<Event>, b: WireBlock, valid: string -> bool)
    requires IsBlockStream(sub, b.kind)
  {
    var started, text, json := sub[0].block, TextOf(sub[1..]), JsonOf(sub[1..]);
    if b.kind == "text" then started.text + text == b.text
    else if b.kind == "thinking" || b.kind == "redacted_thinking" then started.thinking + text == b.thinking
    else if b.kind == "tool_use" then
      && text == "" && started.id == b.id && started.name == b.name
      && b.input == if json == "" then started.input else SafeRawJSON(json, valid)
    else text == "" && MapBlock(started) == MapBlock(b)
  }

  lemma {:induction false} BlockStreamAccumulates(sub: seq<Event>)
    requires sub != [] && sub[0].BlockStart? && AreDeltas(sub[1..])
    ensures var b := MapBlock(sub[0].block);
            Accumulated(sub) == Some(BlockAcc(b.(text := b.text + TextOf(sub[1..])), JsonOf(sub[1..])))
  {
    if |sub| == 1 {
      assert MapBlock(sub[0].block).text + "" == MapBlock(sub[0].block).text;
    } else {
      var p, e := sub[..|sub| - 1], sub[|sub| - 1];
      assert p[1..] == sub[1..][..|sub| - 2] && sub[1..][|sub| - 2] == e;
      BlockStreamAccumulates(p);
      DeltaExtends(MapBlock(sub[0].block), p[1..], e);
      assert p[1..] + [e] == sub[1..];
    }
  }

  lemma DeltaExtends(b: ContentBlock, es: seq<Event>, e: Event)
    requires e.BlockDelta?
    ensures ApplyDelta(BlockAcc(b.(text := b.text + TextOf(es)), JsonOf(es)), e.delta)
         == BlockAcc(b.(text := b.text + TextOf(es + [e])), JsonOf(es + [e]))
  {
    assert (es + [e])[..|es|] == es;
    match e.delta
    case TextDelta(t) => assert b.text + TextOf(es) + t == b.text + (TextOf(es) + t);
    case ThinkingDelta(t) => assert b.text + TextOf(es) + t == b.text + (TextOf(es) + t);
    case InputJsonDelta(p) =>
    case OtherDelta =>
  }

  /** A block comes out as the single-message form has it exactly when its deltas complete it. */
  lemma BlockRefines(es: seq<Event>, i: int, b: WireBlock, valid: string -> bool)
    requires IsBlockStream(BlockEvents(es, i), b.kind)
    ensures BlockOf(es, i, valid) == MapBlock(b) <==> Completes(BlockEvents(es, i), b, valid)
  {
    var sub := BlockEvents(es, i);
    BlockStreamAccumulates(sub);
    var m, text := MapBlock(sub[0].block), TextOf(sub[1..]);
    if !(b.kind == "text" || b.kind == "thinking" || b.kind == "redacted_thinking") {
      assert m.text == "" && m.text + text == text;
    }
  }

  // ----- the message level -----

  predicate IsMessageStream(ms: seq<Event>) {
    ms != [] && ms[0].MessageStart? && forall k :: 1 <= k < |ms| ==> ms[k].MessageDelta?
  }

  function StopOf(es: seq<Event>): string {
    if es == [] then ""
    else if es[|es| - 1].MessageDelta? && es[|es| - 1].stopReason != "" then es[|es| - 1].stopReason
    else StopOf(es[..|es| - 1])
  }

  /** The last output count that is not zero, or `start`. */
  function OutputOf(es: seq<Event>, start: int): int {
    if es == [] then start
    else if es[|es| - 1].MessageDelta? && es[|es| - 1].outputTokens != 0 then es[|es| - 1].outputTokens
    else OutputOf(es[..|es| - 1], start)
  }

  /** The message-level events announce the message's model, stop reason and usage. */
  predicate Announces(ms: seq<Event>, msg: WireMessage)
    requires IsMessageStream(ms)
  {
    var u := ms[0].usage;
    && ms[0].model == msg.model && StopOf(ms[1..]) == msg.stopReason
    && msg.usage == u.(outputTokens := OutputOf(ms[1..], u.outputTokens))
  }

  lemma {:induction false} MessageStreamMeta(ms: seq<Event>)
    requires IsMessageStream(ms)
    ensures var u := ms[0].usage;
            MetaOf(ms) == Meta(ms[0].model, StopOf(ms[1..]), u.(outputTokens := OutputOf(ms[1..], u.outputTokens)).ToNeutral())
  {
    if |ms| == 1 {
      assert MetaOf(ms[..0]) == NO_META;
    } else {
      var p, e := ms[..|ms| - 1], ms[|ms| - 1];
      MessageStreamMeta(p);
      assert p[1..] == ms[1..][..|ms| - 2] && ms[1..][|ms| - 2] == e;
    }
  }

  /** In every stream, well formed or not, the total is the sum of input and output, as Go adds int64s. */
  lemma {:induction false} UsageTotalsAddUp(es: seq<Event>)
    ensures var u := MetaOf(es).usage;
            u.totalTokens == Int64(u.inputTokens + u.outputTokens)
  {
    if es != [] {
      UsageTotalsAddUp(es[..|es| - 1]);
    }
  }

  // ----- the whole stream -----

  const NO_BLOCK := WireBlock("", "", "", "", "", None, "", Missing, false)

  /** The blocks a message's content stands for: a string is one text block, null an empty one, and whatever is
      neither a string nor an array a block of no known type. */
  function WireBlocks(content: WireContent): seq<WireBlock> {
    match content
    case Missing => []
    case Null => [NO_BLOCK.(kind := "text")]
    case Str(s) => [NO_BLOCK.(kind := "text", text := s)]
    case Blocks(blocks) => blocks
    case Other => [NO_BLOCK]
  }

  /** `es` is a legal chunking of `msg`: the message level announces it, and each block, started once,
      in order, under the index `order` gives it, is completed by its own deltas.  How the events of
      different blocks are interleaved is left open. */
  predicate IsChunking(es: seq<Event>, msg: WireMessage, order: seq<int>, valid: string -> bool) {
    var blocks, ms := WireBlocks(msg.content), MessageEvents(es);
    && IsMessageStream(ms) && Announces(ms, msg)
    && Starts(es) == order && |order| == |blocks|
    && forall k :: 0 <= k < |order| ==>
         var sub := BlockEvents(es, order[k]);
         IsBlockStream(sub, blocks[k].kind) && Completes(sub, blocks[k], valid)
  }

  /** The stream means what the message means: output blocks, final text, tool calls, stop reason, usage, model. */
  lemma StreamRefinesMessage(es: seq<Event>, msg: WireMessage, order: seq<int>, valid: string -> bool)
    requires IsChunking(es, msg, order, valid)
    ensures Reassembled(es, valid) == ParseJSONMessage(msg)
  {
    AnnouncedMeta(MessageEvents(es), msg);
    ChunkedBlocks(es, msg, order, valid);
  }

  lemma AnnouncedMeta(ms: seq<Event>, msg: WireMessage)
    requires IsMessageStream(ms) && Announces(ms, msg)
    ensures MetaOf(ms) == Meta(msg.model, msg.stopReason, msg.usage.ToNeutral())
  {
    MessageStreamMeta(ms);
  }

  lemma ChunkedBlocks(es: seq<Event>, msg: WireMessage, order: seq<int>, valid: string -> bool)
    requires IsChunking(es, msg, order, valid)
    ensures BlocksOf(es, order, valid) == ParseBlocks(msg.content)
  {
    var blocks := WireBlocks(msg.content);
    forall k | 0 <= k < |order| ensures BlockOf(es, order[k], valid) == MapBlock(blocks[k]) {
      BlockRefines(es, order[k], blocks[k], valid);
    }
    assert MapBlocks(blocks) == ParseBlocks(msg.content);
  }

  /** From bytes to meaning: printing printable events whose payloads decode to a legal chunking, and
      running the parser and the reassembly on the text, gives the single-message result. */
  lemma BodyRefinesMessage(evs: seq<Sse.SSEEvent>, decode: string -> Option<Event>, msg: WireMessage, order: seq<int>,
                           valid: string -> bool)
    requires forall e :: e in evs ==> Sse.IsPrintable(e)
    requires IsChunking(Sse.Decoded(evs, decode), msg, order, valid)
    ensures Reassembled(Sse.Decoded(Sse.Parsed(Sse.Render(evs)), decode), valid) == ParseJSONMessage(msg)
    ensures Sse.IsSSE(Sse.Render(evs))
  {
    Sse.ParseUndoesRender(evs);
    StreamRefinesMessage(Sse.Decoded(evs, decode), msg, order, valid);
    Sse.RenderedIsSSEIff(evs);
  }

  // ----- every message has a legal chunking -----

  /** What a server sends first for a block: the block with its payload still empty. */
  function Opening(b: WireBlock): WireBlock {
    if b.kind == "text" then b.(text := "")
    else if b.kind == "thinking" || b.kind == "redacted_thinking" then b.(thinking := "")
    else if b.kind == "tool_use" && b.input.Some? then b.(input := Some("{}"))
    else b
  }

  function Payload(b: WireBlock): Delta {
    if b.kind == "text" then TextDelta(b.text)
    else if b.kind == "thinking" || b.kind == "redacted_thinking" then ThinkingDelta(b.thinking)
    else if b.kind == "tool_use" && b.input.Some? then InputJsonDelta(b.input.value)
    else OtherDelta
  }

  /** All starts first, then all payloads: the most interleaved order there is. */
  function Openings(blocks: seq<WireBlock>): seq<Event> {
    if blocks == [] then []
    else Openings(blocks[..|blocks| - 1]) + [BlockStart(|blocks| - 1, Opening(blocks[|blocks| - 1]))]
  }

  function Payloads(blocks: seq<WireBlock>): seq<Event> {
    if blocks == [] then []
    else Payloads(blocks[..|blocks| - 1]) + [BlockDelta(|blocks| - 1, Payload(blocks[|blocks| - 1]))]
  }

  function Streamed(msg: WireMessage): seq<Event> {
    var blocks := WireBlocks(msg.content);
    [MessageStart(msg.model, msg.usage)] + (Openings(blocks) + Payloads(blocks)) + [MessageDelta(msg.stopReason, msg.usage.outputTokens)]
  }

  lemma {:induction false} OpeningsProjections(blocks: seq<WireBlock>, i: int)
    ensures MessageEvents(Openings(blocks)) == []
    ensures Starts(Openings(blocks)) == UpTo(|blocks|)
    ensures BlockEvents(Openings(blocks), i) == if 0 <= i < |blocks| then [BlockStart(i, Opening(blocks[i]))] else []
  {
    if blocks != [] {
      var p, n := blocks[..|blocks| - 1], |blocks| - 1;
      OpeningsProjections(p, i);
      AccumulatedFrame(Openings(p), BlockStart(n, Opening(blocks[n])), i);
    }
  }

  lemma {:induction false} PayloadsProjections(blocks: seq<WireBlock>, i: int)
    ensures MessageEvents(Payloads(blocks)) == []
    ensures Starts(Payloads(blocks)) == []
    ensures BlockEvents(Payloads(blocks), i) == if 0 <= i < |blocks| then [BlockDelta(i, Payload(blocks[i]))] else []
  {
    if blocks != [] {
      var p, n := blocks[..|blocks| - 1], |blocks| - 1;
      PayloadsProjections(p, i);
      AccumulatedFrame(Payloads(p), BlockDelta(n, Payload(blocks[n])), i);
    }
  }

  lemma Pair<T>(a: T, b: T)
    ensures [a] + [b] == [a, b]
  {
  }

  lemma MiddleProjections(blocks: seq<WireBlock>, i: int)
    ensures var es := Openings(blocks) + Payloads(blocks);
            && MessageEvents(es) == [] && Starts(es) == UpTo(|blocks|)
            && BlockEvents(es, i) == if 0 <= i < |blocks| then [BlockStart(i, Opening(blocks[i])), BlockDelta(i, Payload(blocks[i]))] else []
  {
    OpeningsProjections(blocks, i);
    PayloadsProjections(blocks, i);
    ProjectionsConcat(Openings(blocks), Payloads(blocks), i);
    TakeEnds(UpTo(|blocks|), []);
    if 0 <= i < |blocks| {
      Pair(BlockStart(i, Opening(blocks[i])), BlockDelta(i, Payload(blocks[i])));
    }
  }

  /** A first and a last message-level event around block events. */
  lemma Frame(first: Event, es: seq<Event>, last: Event, i: int)
    requires IsForMessage(first) && IsForMessage(last) && MessageEvents(es) == []
    ensures MessageEvents([first] + es + [last]) == [first, last]
    ensures Starts([first] + es + [last]) == Starts(es)
    ensures BlockEvents([first] + es + [last], i) == BlockEvents(es, i)
  {
    SingleProjections(first, i);
    ProjectionsConcat([first], es, i);
    AccumulatedFrame([first] + es, last, i);
    assert [first] + [] == [first];
    Pair(first, last);
    PrefixCut([], Starts(es));
    PrefixCut([], BlockEvents(es, i));
  }

  lemma StreamedProjections(msg: WireMessage, i: int)
    ensures var es, blocks := Streamed(msg), WireBlocks(msg.content);
            && MessageEvents(es) == [MessageStart(msg.model, msg.usage), MessageDelta(msg.stopReason, msg.usage.outputTokens)]
            && Starts(es) == UpTo(|blocks|)
            && BlockEvents(es, i) == if 0 <= i < |blocks| then [BlockStart(i, Opening(blocks[i])), BlockDelta(i, Payload(blocks[i]))] else []
  {
    var blocks := WireBlocks(msg.content);
    MiddleProjections(blocks, i);
    Frame(MessageStart(msg.model, msg.usage), Openings(blocks) + Payloads(blocks),
          MessageDelta(msg.stopReason, msg.usage.outputTokens), i);
  }

  lemma EndsAnnounce(msg: WireMessage)
    ensures var ms := [MessageStart(msg.model, msg.usage), MessageDelta(msg.stopReason, msg.usage.outputTokens)];
            IsMessageStream(ms) && Announces(ms, msg)
  {
    var last := MessageDelta(msg.stopReason, msg.usage.outputTokens);
    var ms := [MessageStart(msg.model, msg.usage), last];
    assert ms[1..] == [last] && [last][..0] == [];
  }

  lemma PayloadCompletes(i: int, b: WireBlock, valid: string -> bool)
    requires b.kind == "tool_use" && b.input.Some? ==> b.input.value != "" && valid(b.input.value)
    ensures var sub := [BlockStart(i, Opening(b)), BlockDelta(i, Payload(b))];
            IsBlockStream(sub, b.kind) && Completes(sub, b, valid)
  {
    var e := BlockDelta(i, Payload(b));
    var sub := [BlockStart(i, Opening(b)), e];
    assert sub[1..] == [e] && [e][..0] == [];
    if b.input.Some? { assert "" + b.input.value == b.input.value; }
    assert "" + b.text == b.text && "" + b.thinking == b.thinking;
  }

  /** Every message whose tool inputs are valid JSON has a stream, and streaming it loses nothing. */
  lemma StreamingRoundTrip(msg: WireMessage, valid: string -> bool)
    requires forall b :: b in WireBlocks(msg.content) && b.kind == "tool_use" && b.input.Some? ==> b.input.value != "" && valid(b.input.value)
    ensures IsChunking(Streamed(msg), msg, UpTo(|WireBlocks(msg.content)|), valid)
    ensures Reassembled(Streamed(msg), valid) == ParseJSONMessage(msg)
  {
    var es, blocks := Streamed(msg), WireBlocks(msg.content);
    forall k | 0 <= k < |blocks|
      ensures IsBlockStream(BlockEvents(es, k), blocks[k].kind) && Completes(BlockEvents(es, k), blocks[k], valid)
    {
      StreamedProjections(msg, k);
      PayloadCompletes(k, blocks[k], valid);
    }
    StreamedProjections(msg, 0);
    EndsAnnounce(msg);
    StreamRefinesMessage(es, msg, UpTo(|blocks|), valid);
  }
}
