/** Which field of the wire each part of an Anthropic response comes from, in the single-message form and in any stream. */
module AnthropicFields {
  import opened Anthropic
  import opened AnthropicRefinement
  import opened AnthropicStreams
  import opened Neutral
  import opened Options
  import opened Sequences
  import Text

  // ----- blocks -----

  predicate HasNoTool(c: ContentBlock) {
    c.toolCall == None && c.toolResult == None
  }

  /** `c` carries what the wire block `b` says, each part from its own field. */
  ghost predicate IsOf(c: ContentBlock, b: WireBlock)
    decreases b
  {
    match b.kind
    case "text" => c.kind == Text && c.text == b.text && HasNoTool(c)
    case "thinking" => c.kind == Reasoning && c.text == b.thinking && HasNoTool(c)
    case "redacted_thinking" => c.kind == Reasoning && c.text == b.thinking && HasNoTool(c)
    case "tool_use" =>
      && c.kind == ToolUse && c.text == "" && c.toolResult == None && c.toolCall.Some?
      && c.toolCall.value.id == b.id && c.toolCall.value.name == b.name && c.toolCall.value.arguments == b.input
    case "tool_result" =>
      && c.kind == ToolOutput && c.text == "" && c.toolCall == None && c.toolResult.Some?
      && c.toolResult.value.toolCallId == b.toolUseId && c.toolResult.value.isError == b.isError
      && AreOf(c.toolResult.value.content, b.content)
    case "image" => c.kind == Image && c.text == "" && HasNoTool(c)
    case _ => c.kind == Unknown && c.text == "" && HasNoTool(c)
  }

  ghost predicate AreOf(cs: seq<ContentBlock>, content: WireContent)
    decreases content
  {
    match content
    case Missing => cs == []
    case Null => |cs| == 1 && cs[0].kind == Text && cs[0].text == "" && HasNoTool(cs[0])
    case Str(s) => |cs| == 1 && cs[0].kind == Text && cs[0].text == s && HasNoTool(cs[0])
    case Blocks(bs) => |cs| == |bs| && forall k :: 0 <= k < |bs| ==> IsOf(cs[k], bs[k])
    case Other => |cs| == 1 && cs[0].kind == Unknown && cs[0].text == "" && HasNoTool(cs[0])
  }

  lemma {:induction false} MappedIsOf(b: WireBlock)
    ensures IsOf(MapBlock(b), b)
    decreases b
  {
    if b.kind == "tool_result" {
      ParsedAreOf(b.content);
    }
  }

  lemma {:induction false} ParsedAreOf(content: WireContent)
    ensures AreOf(ParseBlocks(content), content)
    decreases content
  {
    if content.Blocks? {
      forall k | 0 <= k < |content.blocks| ensures IsOf(MapBlock(content.blocks[k]), content.blocks[k]) {
        MappedIsOf(content.blocks[k]);
      }
    }
  }

  // ----- what is gathered from blocks -----

  /** The text blocks' texts, in order. */
  function TextFields(blocks: seq<WireBlock>): seq<string> {
    if blocks == [] then [] else (if blocks[0].kind == "text" then [blocks[0].text] else []) + TextFields(blocks[1..])
  }

  /** The tool calls, in order. */
  function ToolUses(blocks: seq<WireBlock>): seq<WireBlock> {
    if blocks == [] then [] else (if blocks[0].kind == "tool_use" then [blocks[0]] else []) + ToolUses(blocks[1..])
  }

  lemma {:induction false} TextsAreFields(blocks: seq<WireBlock>)
    ensures Texts(MapBlocks(blocks)) == TextFields(blocks)
  {
    if blocks != [] {
      TextsAreFields(blocks[1..]);
      MappedIsOf(blocks[0]);
      PrefixCut([MapBlock(blocks[0])], MapBlocks(blocks[1..]));
    }
  }

  /** The call carries the block's id, name and input. */
  predicate CallIs(call: ToolCall, b: WireBlock) {
    call.id == b.id && call.name == b.name && call.arguments == b.input
  }

  predicate AreCallsOf(calls: seq<ToolCall>, uses: seq<WireBlock>) {
    |calls| == |uses| && forall k :: 0 <= k < |uses| ==> CallIs(calls[k], uses[k])
  }

  lemma AreCallsCons(call: ToolCall, b: WireBlock, calls: seq<ToolCall>, uses: seq<WireBlock>)
    requires CallIs(call, b) && AreCallsOf(calls, uses)
    ensures AreCallsOf([call] + calls, [b] + uses)
  {
    hide CallIs;
  }

  lemma MappedCall(b: WireBlock)
    ensures var c := MapBlock(b);
            && (b.kind == "tool_use" <==> c.kind == ToolUse && c.toolCall.Some?)
            && (b.kind == "tool_use" ==> CallIs(c.toolCall.value, b))
  {
    MappedIsOf(b);
  }

  lemma {:induction false} CallsAreToolUses(blocks: seq<WireBlock>)
    ensures AreCallsOf(Calls(MapBlocks(blocks)), ToolUses(blocks))
  {
    hide MapBlock, CallIs;
    if blocks != [] {
      var c := MapBlock(blocks[0]);
      var calls, uses := Calls(MapBlocks(blocks[1..])), ToolUses(blocks[1..]);
      CallsAreToolUses(blocks[1..]);
      MappedCall(blocks[0]);
      PrefixCut([c], MapBlocks(blocks[1..]));
      if blocks[0].kind == "tool_use" {
        AreCallsCons(c.toolCall.value, blocks[0], calls, uses);
      } else {
        assert [] + uses == uses;
      }
    }
  }

  /** Which count each entry of a usage comes from. */
  ghost predicate IsUsage(u: Usage, input: int, output: int, creation: int, read: int) {
    && u.inputTokens == input && u.outputTokens == output
    && u.totalTokens == Int64(input + output)
    && (u.cache == None <==> creation == 0 && read == 0)
    && (u.cache.Some? ==> u.cache.value.0 == creation && u.cache.value.1 == read)
  }

  /** A single message with a list of blocks: final text, tool calls, output, stop reason, model and usage, field by field. */
  lemma MessageFields(msg: WireMessage)
    requires msg.content.Blocks?
    ensures var (r, model) := ParseJSONMessage(msg);
            var blocks, uses := msg.content.blocks, ToolUses(msg.content.blocks);
            && model == msg.model && r.stopReason == msg.stopReason
            && r.usage.Some?
            && IsUsage(r.usage.value, msg.usage.inputTokens, msg.usage.outputTokens, msg.usage.cacheCreation, msg.usage.cacheRead)
            && r.finalText == Text.Join(TextFields(blocks), "")
            && AreCallsOf(r.toolCalls, uses)
            && (if blocks == [] then r.output == []
                else |r.output| == 1 && r.output[0].role == "assistant" && AreOf(r.output[0].content, msg.content))
  {
    TextsAreFields(msg.content.blocks);
    CallsAreToolUses(msg.content.blocks);
    ConcatIsJoin(TextFields(msg.content.blocks));
    ParsedAreOf(msg.content);
  }

  /** Content of any kind: one message with the blocks it stands for, or none when there are none. */
  lemma ContentFields(msg: WireMessage)
    ensures var r := ParseJSONMessage(msg).0;
            if r.output == [] then AreOf([], msg.content)
            else |r.output| == 1 && r.output[0].role == "assistant" && AreOf(r.output[0].content, msg.content)
  {
    ParsedAreOf(msg.content);
  }

  // ----- any stream -----

  /** The text and thinking that the deltas of block `i` add, in order. */
  function Added(es: seq<Event>, i: int): string {
    if es == [] then ""
    else (match es[0]
          case BlockDelta(j, TextDelta(t)) => if j == i then t else ""
          case BlockDelta(j, ThinkingDelta(t)) => if j == i then t else ""
          case _ => "") + Added(es[1..], i)
  }

  /** The partial JSON that the deltas of block `i` add, in order. */
  function AddedJson(es: seq<Event>, i: int): string {
    if es == [] then ""
    else (match es[0]
          case BlockDelta(j, InputJsonDelta(p)) => if j == i then p else ""
          case _ => "") + AddedJson(es[1..], i)
  }

  lemma {:induction false} AddedConcat(x: seq<Event>, y: seq<Event>, i: int)
    ensures Added(x + y, i) == Added(x, i) + Added(y, i)
    ensures AddedJson(x + y, i) == AddedJson(x, i) + AddedJson(y, i)
  {
    if x == [] {
      assert x + y == y && "" + Added(y, i) == Added(y, i) && "" + AddedJson(y, i) == AddedJson(y, i);
    } else {
      assert (x + y)[0] == x[0] && (x + y)[1..] == x[1..] + y;
      AddedConcat(x[1..], y, i);
      var a, j := Added([x[0]], i), AddedJson([x[0]], i);
      AddedOne(x[0], i);
      AddedOfCons(x, i);
      AddedOfCons(x + y, i);
      Assoc(a, Added(x[1..], i), Added(y, i));
      Assoc(j, AddedJson(x[1..], i), AddedJson(y, i));
    }
  }

  lemma AddedOne(e: Event, i: int)
    ensures Added([e], i) == match e
                             case BlockDelta(j, TextDelta(t)) => if j == i then t else ""
                             case BlockDelta(j, ThinkingDelta(t)) => if j == i then t else ""
                             case _ => ""
    ensures AddedJson([e], i) == match e
                                 case BlockDelta(j, InputJsonDelta(p)) => if j == i then p else ""
                                 case _ => ""
  {
    assert [e][1..] == [];
  }

  lemma AddedOfCons(es: seq<Event>, i: int)
    requires es != []
    ensures Added(es, i) == Added([es[0]], i) + Added(es[1..], i)
    ensures AddedJson(es, i) == AddedJson([es[0]], i) + AddedJson(es[1..], i)
  {
    AddedOne(es[0], i);
  }

  lemma DeltaSnoc(es: seq<Event>, e: Event)
    requires AreDeltas(es) && e.BlockDelta?
    ensures AreDeltas(es + [e])
    ensures TextOf(es + [e]) == TextOf(es) + Added([e], e.index) && JsonOf(es + [e]) == JsonOf(es) + AddedJson([e], e.index)
  {
    AddedOne(e, e.index);
    assert (es + [e])[..|es|] == es && (es + [e])[|es|] == e;
  }

  lemma OtherAddsNothing(e: Event, i: int)
    requires !e.BlockDelta? || e.index != i
    ensures Added([e], i) == "" && AddedJson([e], i) == ""
  {
    AddedOne(e, i);
  }

  /** Block `i`'s own events add what its deltas in the stream add. */
  lemma {:induction false} DeltasOfBlock(es: seq<Event>, i: int)
    requires i !in Starts(es)
    ensures AreDeltas(BlockEvents(es, i))
    ensures TextOf(BlockEvents(es, i)) == Added(es, i) && JsonOf(BlockEvents(es, i)) == AddedJson(es, i)
  {
    if es == [] {
    } else {
      hide TextOf, JsonOf, Added, AddedJson, AreDeltas;
      var p, e := es[..|es| - 1], es[|es| - 1];
      DeltasOfBlock(p, i);
      assert p + [e] == es;
      AddedConcat(p, [e], i);
      if e.BlockDelta? && e.index == i {
        DeltaSnoc(BlockEvents(p, i), e);
      } else {
        OtherAddsNothing(e, i);
        assert Added(p, i) + "" == Added(p, i) && AddedJson(p, i) + "" == AddedJson(p, i);
      }
    }
  }

  /** What a block has become: everything as its start says, the added text behind its text, and a call's arguments
      replaced by the added JSON, when there is any. */
  ghost predicate IsGrown(c: ContentBlock, b: WireBlock, added: string, json: string, valid: string -> bool) {
    exists m :: IsOf(m, b) && IsGrownFrom(c, m, added, json, valid)
  }

  predicate IsGrownFrom(c: ContentBlock, m: ContentBlock, added: string, json: string, valid: string -> bool) {
    && c.kind == m.kind && c.text == m.text + added && c.toolResult == m.toolResult
    && (m.toolCall == None <==> c.toolCall == None)
    && (m.toolCall.Some? ==>
          && c.toolCall.value.id == m.toolCall.value.id && c.toolCall.value.name == m.toolCall.value.name
          && c.toolCall.value.arguments == if json == "" then m.toolCall.value.arguments else if valid(json) then Some(json) else None)
  }

  /** What comes before the last start of a block leaves no trace in it. */
  lemma StartBegins(p: seq<Event>, i: int, b: WireBlock, q: seq<Event>)
    requires AreDeltas(BlockEvents(q, i))
    ensures var start := BlockStart(i, b);
            Accumulated(BlockEvents(p + [start] + q, i)) == Accumulated([start] + BlockEvents(q, i))
  {
    var start := BlockStart(i, b);
    SingleProjections(start, i);
    ProjectionsConcat(p + [start], q, i);
    ProjectionsConcat(p, [start], i);
    AccumulatedSnoc(BlockEvents(p, i), start);
    AccumulatedSnoc([], start);
    assert [] + [start] == [start];
    EqualPrefixesAccumulateAlike(BlockEvents(p, i) + [start], [start], BlockEvents(q, i));
  }

  /** In any stream a block is what its last start event and the deltas after that make of it. */
  lemma BlockComesFromItsStart(p: seq<Event>, i: int, b: WireBlock, q: seq<Event>, valid: string -> bool)
    requires i !in Starts(q)
    ensures IsGrown(BlockOf(p + [BlockStart(i, b)] + q, i, valid), b, Added(q, i), AddedJson(q, i), valid)
  {
    var start, ds := BlockStart(i, b), BlockEvents(q, i);
    DeltasOfBlock(q, i);
    StartBegins(p, i, b, q);
    var sub := [start] + ds;
    assert sub[0] == start && sub[1..] == ds;
    BlockStreamAccumulates(sub);
    MappedIsOf(b);
    assert IsGrownFrom(BlockOf(p + [start] + q, i, valid), MapBlock(b), Added(q, i), AddedJson(q, i), valid);
  }

  /** The id and the name of a streamed call are those of the last start event of its index. */
  lemma CallComesFromItsStart(p: seq<Event>, i: int, b: WireBlock, q: seq<Event>, valid: string -> bool)
    requires i !in Starts(q) && b.kind == "tool_use"
    ensures var c := BlockOf(p + [BlockStart(i, b)] + q, i, valid);
            c.kind == ToolUse && c.toolCall.Some? && c.toolCall.value.id == b.id && c.toolCall.value.name == b.name
  {
    BlockComesFromItsStart(p, i, b, q, valid);
  }

  /** The call blocks among blocks of content, in order. */
  function CallBlocksIn(cs: seq<ContentBlock>): seq<ContentBlock> {
    if cs == [] then [] else (if cs[0].kind == ToolUse && cs[0].toolCall.Some? then [cs[0]] else []) + CallBlocksIn(cs[1..])
  }

  function TextsIn(cs: seq<ContentBlock>): seq<string> {
    if cs == [] then [] else (if cs[0].kind == Text then [cs[0].text] else []) + TextsIn(cs[1..])
  }

  lemma {:induction false} TextsGathered(cs: seq<ContentBlock>)
    ensures Texts(cs) == TextsIn(cs)
  {
    if cs != [] {
      TextsGathered(cs[1..]);
      assert [] + TextsIn(cs[1..]) == TextsIn(cs[1..]);
    }
  }

  lemma {:induction false} CallsGathered(cs: seq<ContentBlock>)
    ensures |Calls(cs)| == |CallBlocksIn(cs)|
    ensures forall k :: 0 <= k < |Calls(cs)| ==> CallBlocksIn(cs)[k].toolCall == Some(Calls(cs)[k])
  {
    if cs != [] {
      var rest := cs[1..];
      CallsGathered(rest);
      if cs[0].kind == ToolUse && cs[0].toolCall.Some? {
        PrefixCut([cs[0]], CallBlocksIn(rest));
        PrefixCut([cs[0].toolCall.value], Calls(rest));
      } else {
        assert [] + CallBlocksIn(rest) == CallBlocksIn(rest);
      }
    }
  }

  /** The response of any stream: one block for every start, in order, and what is gathered from them. */
  lemma StreamFields(es: seq<Event>, valid: string -> bool)
    ensures var (r, model) := Reassembled(es, valid);
            && (Starts(es) == [] ==> r.output == [] && r.toolCalls == [] && r.finalText == "")
            && (Starts(es) != [] ==>
                  && |r.output| == 1 && r.output[0].role == "assistant" && |r.output[0].content| == |Starts(es)|
                  && (forall k :: 0 <= k < |Starts(es)| ==> r.output[0].content[k] == BlockOf(es, Starts(es)[k], valid))
                  && r.finalText == Text.Join(TextsIn(r.output[0].content), "")
                  && |r.toolCalls| == |CallBlocksIn(r.output[0].content)|
                  && forall k :: 0 <= k < |r.toolCalls| ==> CallBlocksIn(r.output[0].content)[k].toolCall == Some(r.toolCalls[k]))
  {
    var blocks := BlocksOf(es, Starts(es), valid);
    TextsGathered(blocks);
    CallsGathered(blocks);
    ConcatIsJoin(TextsIn(blocks));
  }

  // ----- the message level of any stream -----

  /** The last of the reasons given, or `reason`. */
  function LastReason(es: seq<Event>, reason: string): string {
    if es == [] then reason
    else LastReason(es[1..], if es[0].MessageDelta? && es[0].stopReason != "" then es[0].stopReason else reason)
  }

  /** The last of the output counts given that is not zero, or `count`. */
  function LastCount(es: seq<Event>, count: int): int {
    if es == [] then count
    else LastCount(es[1..], if es[0].MessageDelta? && es[0].outputTokens != 0 then es[0].outputTokens else count)
  }

  lemma {:induction false} LastSnoc(es: seq<Event>, e: Event, reason: string, count: int)
    ensures LastReason(es + [e], reason) == if e.MessageDelta? && e.stopReason != "" then e.stopReason else LastReason(es, reason)
    ensures LastCount(es + [e], count) == if e.MessageDelta? && e.outputTokens != 0 then e.outputTokens else LastCount(es, count)
  {
    if es == [] {
      assert es + [e] == [e] && [e][1..] == [];
    } else {
      assert (es + [e])[0] == es[0] && (es + [e])[1..] == es[1..] + [e];
      LastSnoc(es[1..], e, if es[0].MessageDelta? && es[0].stopReason != "" then es[0].stopReason else reason,
               if es[0].MessageDelta? && es[0].outputTokens != 0 then es[0].outputTokens else count);
    }
  }

  lemma {:induction false} ReasonOfStream(es: seq<Event>)
    ensures MetaOf(MessageEvents(es)).stopReason == LastReason(es, "")
  {
    if es != [] {
      var p, e := es[..|es| - 1], es[|es| - 1];
      ReasonOfStream(p);
      assert p + [e] == es;
      MetaStep(p, e);
      LastSnoc(p, e, "", 0);
    }
  }

  lemma StartsUsage(model: string, u: WireUsage)
    ensures forall m: Meta :: ApplyMeta(m, MessageStart(model, u)).model == model
                              && IsUsage(ApplyMeta(m, MessageStart(model, u)).usage, u.inputTokens, LastCount([], u.outputTokens), u.cacheCreation, u.cacheRead)
  {
  }

  lemma UsageStep(m: Meta, e: Event, input: int, output: int, creation: int, read: int)
    requires !e.MessageStart? && IsUsage(m.usage, input, output, creation, read)
    ensures var m' := ApplyMeta(m, e);
            && m'.model == m.model
            && IsUsage(m'.usage, input, if e.MessageDelta? && e.outputTokens != 0 then e.outputTokens else output, creation, read)
  {
    hide Int64;
  }

  lemma {:induction false} UsageAfterStart(p: seq<Event>, model: string, u: WireUsage, q: seq<Event>)
    requires forall e :: e in q ==> !e.MessageStart?
    ensures var m := MetaOf(MessageEvents(p + [MessageStart(model, u)] + q));
            m.model == model && IsUsage(m.usage, u.inputTokens, LastCount(q, u.outputTokens), u.cacheCreation, u.cacheRead)
  {
    hide Int64, MessageEvents, MetaOf, LastCount, IsUsage;
    var head := p + [MessageStart(model, u)];
    if q == [] {
      assert head + q == head;
      StartsUsage(model, u);
      MetaStep(p, MessageStart(model, u));
    } else {
      var q', e := q[..|q| - 1], q[|q| - 1];
      assert e in q && q' + [e] == q && head + q == (head + q') + [e];
      UsageAfterStart(p, model, u, q');
      MetaStep(head + q', e);
      LastSnoc(q', e, "", u.outputTokens);
      UsageStep(MetaOf(MessageEvents(head + q')), e, u.inputTokens, LastCount(q', u.outputTokens), u.cacheCreation, u.cacheRead);
    }
  }

  /** Model and usage come from the last message start, the output count from the last delta that gives one, and the stop
      reason from the last delta that gives one, wherever that stands. */
  lemma StreamMetaFields(p: seq<Event>, model: string, u: WireUsage, q: seq<Event>, valid: string -> bool)
    requires forall e :: e in q ==> !e.MessageStart?
    ensures var es := p + [MessageStart(model, u)] + q;
            var (r, m) := Reassembled(es, valid);
            && m == model && r.stopReason == LastReason(es, "") && r.usage.Some?
            && IsUsage(r.usage.value, u.inputTokens, LastCount(q, u.outputTokens), u.cacheCreation, u.cacheRead)
  {
    UsageAfterStart(p, model, u, q);
    ReasonOfStream(p + [MessageStart(model, u)] + q);
  }

  lemma {:induction false} MetaWithoutStart(es: seq<Event>)
    requires forall e :: e in es ==> !e.MessageStart?
    ensures var m := MetaOf(MessageEvents(es));
            m.model == "" && IsUsage(m.usage, 0, LastCount(es, 0), 0, 0)
  {
    if es != [] {
      var p, e := es[..|es| - 1], es[|es| - 1];
      assert e in es && p + [e] == es;
      MetaWithoutStart(p);
      MetaStep(p, e);
      LastSnoc(p, e, "", 0);
      UsageStep(MetaOf(MessageEvents(p)), e, 0, LastCount(p, 0), 0, 0);
    }
  }

  /** A stream whose message start is missing has no model, and its usage has no more than an output count. */
  lemma StreamWithoutStart(es: seq<Event>, valid: string -> bool)
    requires forall e :: e in es ==> !e.MessageStart?
    ensures var (r, m) := Reassembled(es, valid);
            m == "" && r.usage.Some? && IsUsage(r.usage.value, 0, LastCount(es, 0), 0, 0) && r.stopReason == LastReason(es, "")
  {
    MetaWithoutStart(es);
    ReasonOfStream(es);
  }
}
