/** Which field of the wire each part of a Chat response comes from, in the single reply and in any stream. */
module ChatFields {
  import opened Chat
  import opened ChatStreams
  import opened Neutral
  import opened Options
  import opened Sequences
  import Text

  // ----- usage -----

  /** A usage with no counts is none; otherwise each entry comes from its own count, and a missing total is the sum. */
  lemma UsageFields(u: ChatUsage)
    ensures u.ToNeutral() == None <==> u.promptTokens == 0 && u.completionTokens == 0 && u.totalTokens == 0
    ensures u.ToNeutral().Some? ==>
            var r := u.ToNeutral().value;
            && r.inputTokens == u.promptTokens && r.outputTokens == u.completionTokens && r.cache == None
            && r.totalTokens == if u.totalTokens != 0 then u.totalTokens else Int64(u.promptTokens + u.completionTokens)
  {
  }

  // ----- content -----

  predicate HasNoTool(c: ContentBlock) {
    c.toolCall == None && c.toolResult == None
  }

  /** `c` carries what the part says. */
  predicate IsOf(c: ContentBlock, p: ContentPart) {
    && HasNoTool(c)
    && match p.kind
       case "text" => c.kind == Text && c.text == p.text
       case "input_text" => c.kind == Text && c.text == p.text
       case "output_text" => c.kind == Text && c.text == p.text
       case "summary_text" => c.kind == Text && c.text == p.text
       case "image_url" => c.kind == Image && c.text == ""
       case "input_image" => c.kind == Image && c.text == ""
       case "output_image" => c.kind == Image && c.text == ""
       case _ => c.kind == Unknown && c.text == ""
  }

  predicate AreOf(cs: seq<ContentBlock>, content: ChatContent) {
    match content
    case Missing => cs == []
    case Null => |cs| == 1 && cs[0].kind == Text && cs[0].text == "" && HasNoTool(cs[0])
    case Str(s) => |cs| == 1 && cs[0].kind == Text && cs[0].text == s && HasNoTool(cs[0])
    case Parts(ps) => |cs| == |ps| && forall k :: 0 <= k < |ps| ==> IsOf(cs[k], ps[k])
    case Other => |cs| == 1 && cs[0].kind == Unknown && cs[0].text == "" && HasNoTool(cs[0])
  }

  lemma {:induction false} MappedParts(ps: seq<ContentPart>)
    ensures |MapParts(ps)| == |ps| && forall k :: 0 <= k < |ps| ==> IsOf(MapParts(ps)[k], ps[k])
  {
    hide IsOf;
    if ps != [] {
      MappedParts(ps[1..]);
      MappedPart(ps[0]);
    }
  }

  lemma MappedPart(p: ContentPart)
    ensures IsOf(MapPart(p), p)
  {
  }

  lemma MappedContent(content: ChatContent)
    ensures AreOf(MapContent(content), content)
  {
    if content.Parts? { MappedParts(content.parts); }
  }

  predicate IsTextPart(p: ContentPart) {
    p.kind == "text" || p.kind == "input_text" || p.kind == "output_text" || p.kind == "summary_text"
  }

  function PartTexts(ps: seq<ContentPart>): seq<string> {
    if ps == [] then [] else (if IsTextPart(ps[0]) then [ps[0].text] else []) + PartTexts(ps[1..])
  }

  /** The texts of a content, in order. */
  function ContentTexts(content: ChatContent): seq<string> {
    match content
    case Null => [""]
    case Str(s) => [s]
    case Parts(ps) => PartTexts(ps)
    case _ => []
  }

  lemma {:induction false} TextsOfParts(ps: seq<ContentPart>)
    ensures Texts(MapParts(ps)) == PartTexts(ps)
  {
    if ps != [] {
      TextsOfParts(ps[1..]);
      MappedPart(ps[0]);
      PrefixCut([MapPart(ps[0])], MapParts(ps[1..]));
    }
  }

  lemma TextsOfContent(content: ChatContent)
    ensures Texts(MapContent(content)) == ContentTexts(content)
  {
    match content {
      case Parts(ps) => TextsOfParts(ps);
      case Null => OneBlock(Plain(Text, ""));
      case Str(s) => OneBlock(Plain(Text, s));
      case Other => OneBlock(Plain(Unknown, ""));
      case Missing =>
    }
  }

  lemma OneBlock(c: ContentBlock)
    ensures Texts([c]) == if c.kind == Text then [c.text] else []
  {
    assert [c][1..] == [];
  }

  // ----- the single reply -----

  /** The call carries the id, the name and the arguments, when they are valid JSON. */
  predicate CallIs(call: ToolCall, id: string, name: string, arguments: string, valid: string -> bool) {
    call.id == id && call.name == name && call.arguments == if arguments != "" && valid(arguments) then Some(arguments) else None
  }

  /** The message of a reply that is not a tool's: the content's blocks, then one block per call. */
  lemma ReplyFields(reply: ChatReply, valid: string -> bool)
    requires reply.choices != [] && reply.choices[0].message.role != "tool"
    ensures ParseChatReply(reply, valid).Some?
    ensures var (r, model) := ParseChatReply(reply, valid).value;
            var ch, msg := reply.choices[0], reply.choices[0].message;
            && model == reply.model && r.stopReason == ch.finishReason && r.usage == reply.usage.ToNeutral()
            && r.finalText == Text.Join(ContentTexts(msg.content), "")
            && |r.toolCalls| == |msg.toolCalls|
            && (forall k :: 0 <= k < |msg.toolCalls| ==>
                 CallIs(r.toolCalls[k], msg.toolCalls[k].id, msg.toolCalls[k].name, msg.toolCalls[k].arguments, valid))
            && |r.output| == 1 && r.output[0].role == "assistant"
            && exists cs :: AreOf(cs, msg.content) && r.output[0].content == cs + CallBlocks(r.toolCalls)
  {
    hide AreOf, MapContent, ContentTexts, Texts, Calls, CallBlocks, MapCalls, Text.Join, Concat;
    var msg := reply.choices[0].message;
    var calls := MapCalls(msg.toolCalls, valid);
    MappedContent(msg.content);
    TextsOfContent(msg.content);
    CallBlocksCarryCalls(MapContent(msg.content), calls);
    ContentCarriesNoCalls(msg.content);
    assert [] + calls == calls;
    ConcatIsJoin(ContentTexts(msg.content));
  }

  /** One block per call, which holds that call and nothing else. */
  lemma {:induction false} CallBlocksHoldCalls(calls: seq<ToolCall>)
    ensures |CallBlocks(calls)| == |calls|
    ensures forall k :: 0 <= k < |calls| ==> CallBlocks(calls)[k] == ContentBlock(ToolUse, "", Some(calls[k]), None)
  {
    if calls != [] {
      CallBlocksHoldCalls(calls[1..]);
    }
  }

  /** A tool's message is one result block with its id and content, and no call. */
  lemma ToolReplyFields(reply: ChatReply, valid: string -> bool)
    requires reply.choices != [] && reply.choices[0].message.role == "tool"
    ensures ParseChatReply(reply, valid).Some?
    ensures var r, msg := ParseChatReply(reply, valid).value.0, reply.choices[0].message;
            && r.toolCalls == [] && r.finalText == "" && |r.output| == 1 && r.output[0].role == "assistant"
            && |r.output[0].content| == 1 && r.output[0].content[0].kind == ToolOutput && r.output[0].content[0].toolResult.Some?
            && var t := r.output[0].content[0].toolResult.value;
               t.toolCallId == msg.toolCallId && !t.isError && AreOf(t.content, msg.content)
  {
    var msg := reply.choices[0].message;
    MappedContent(msg.content);
    var c := ContentBlock(ToolOutput, "", None, Some(ToolResult(msg.toolCallId, MapContent(msg.content), false)));
    OneBlock(c);
    assert Calls([c]) == Calls([c][1..]) == [];
  }

  lemma NoChoiceNoReply(reply: ChatReply, valid: string -> bool)
    ensures ParseChatReply(reply, valid) == None <==> reply.choices == []
  {
  }

  // ----- any stream -----

  /** The deltas of tool `i`, in order. */
  function Own(ds: seq<ToolDelta>, i: int): seq<ToolDelta> {
    if ds == [] then [] else (if ds[0].index == i then [ds[0]] else []) + Own(ds[1..], i)
  }

  lemma {:induction false} OwnSnoc(ds: seq<ToolDelta>, d: ToolDelta, i: int)
    ensures Own(ds + [d], i) == Own(ds, i) + if d.index == i then [d] else []
  {
    if ds == [] {
      assert ds + [d] == [d] && [d][1..] == [];
    } else {
      assert (ds + [d])[0] == ds[0] && (ds + [d])[1..] == ds[1..] + [d];
      OwnSnoc(ds[1..], d, i);
      Assoc(if ds[0].index == i then [ds[0]] else [], Own(ds[1..], i), if d.index == i then [d] else []);
    }
  }

  lemma {:induction false} OwnIsOfTool(ds: seq<ToolDelta>, i: int)
    ensures OfTool(ds, i) == Own(ds, i)
  {
    if ds != [] {
      var p, d := ds[..|ds| - 1], ds[|ds| - 1];
      OwnIsOfTool(p, i);
      assert p + [d] == ds;
      OwnSnoc(p, d, i);
    }
  }

  /** The last text that is not empty, or the empty one. */
  ghost predicate IsLastGiven(s: string, texts: seq<string>) {
    || (s == "" && forall k :: 0 <= k < |texts| ==> texts[k] == "")
    || (s != "" && exists k :: 0 <= k < |texts| && texts[k] == s && forall j :: k < j < |texts| ==> texts[j] == "")
  }

  function Ids(ds: seq<ToolDelta>): (r: seq<string>)
    ensures |r| == |ds| && forall k :: 0 <= k < |ds| ==> r[k] == ds[k].id
  {
    seq(|ds|, k requires 0 <= k < |ds| => ds[k].id)
  }

  function Names(ds: seq<ToolDelta>): (r: seq<string>)
    ensures |r| == |ds| && forall k :: 0 <= k < |ds| ==> r[k] == ds[k].name
  {
    seq(|ds|, k requires 0 <= k < |ds| => ds[k].name)
  }

  function ArgumentTexts(ds: seq<ToolDelta>): (r: seq<string>)
    ensures |r| == |ds| && forall k :: 0 <= k < |ds| ==> r[k] == ds[k].arguments
  {
    seq(|ds|, k requires 0 <= k < |ds| => ds[k].arguments)
  }

  lemma LastGivenSnoc(s: string, texts: seq<string>, t: string)
    requires IsLastGiven(s, texts)
    ensures IsLastGiven(if t != "" then t else s, texts + [t])
  {
    var all := texts + [t];
    if t != "" {
      assert all[|texts|] == t;
    } else if s != "" {
      var k :| 0 <= k < |texts| && texts[k] == s && forall j :: k < j < |texts| ==> texts[j] == "";
      assert all[k] == s;
    }
  }

  lemma {:induction false} IdIsLastGiven(ds: seq<ToolDelta>)
    ensures IsLastGiven(IdOf(ds), Ids(ds))
  {
    if ds != [] {
      var p, d := ds[..|ds| - 1], ds[|ds| - 1];
      IdIsLastGiven(p);
      LastGivenSnoc(IdOf(p), Ids(p), d.id);
      assert Ids(ds) == Ids(p) + [d.id];
    }
  }

  lemma {:induction false} NameIsLastGiven(ds: seq<ToolDelta>)
    ensures IsLastGiven(NameOf(ds), Names(ds))
  {
    if ds != [] {
      var p, d := ds[..|ds| - 1], ds[|ds| - 1];
      NameIsLastGiven(p);
      LastGivenSnoc(NameOf(p), Names(p), d.name);
      assert Names(ds) == Names(p) + [d.name];
    }
  }

  lemma {:induction false} ArgumentsAreJoined(ds: seq<ToolDelta>)
    ensures ArgumentsOf(ds) == Text.Join(ArgumentTexts(ds), "")
  {
    ConcatIsJoin(ArgumentTexts(ds));
    if ds != [] {
      var p, d := ds[..|ds| - 1], ds[|ds| - 1];
      ArgumentsAreJoined(p);
      ConcatIsJoin(ArgumentTexts(p));
      ConcatSnoc(ArgumentTexts(p), d.arguments);
      assert ArgumentTexts(ds) == ArgumentTexts(p) + [d.arguments];
    }
  }

  /** A call made of one tool's deltas: the id and the name given last, the arguments joined. */
  ghost predicate IsMadeOf(call: ToolCall, ds: seq<ToolDelta>, valid: string -> bool) {
    exists id, name ::
      && IsLastGiven(id, Ids(ds)) && IsLastGiven(name, Names(ds))
      && CallIs(call, id, name, Text.Join(ArgumentTexts(ds), ""), valid)
  }

  lemma ToolIsMade(ds: seq<ToolDelta>, i: int, valid: string -> bool)
    ensures IsMadeOf(CallOf(ds, i, valid), Own(ds, i), valid)
  {
    var own := Own(ds, i);
    OwnIsOfTool(ds, i);
    IdIsLastGiven(own);
    NameIsLastGiven(own);
    ArgumentsAreJoined(own);
    assert CallIs(CallOf(ds, i, valid), IdOf(own), NameOf(own), Text.Join(ArgumentTexts(own), ""), valid);
  }

  /** The position of the first delta of tool `i`. */
  function FirstAt(ds: seq<ToolDelta>, i: int): (k: nat)
    ensures k <= |ds| && (k < |ds| ==> ds[k].index == i) && forall j :: 0 <= j < k ==> ds[j].index != i
  {
    if ds == [] || ds[0].index == i then 0 else FirstAt(ds[1..], i) + 1
  }

  lemma FirstAtSnoc(ds: seq<ToolDelta>, d: ToolDelta, i: int)
    ensures FirstAt(ds + [d], i) == if FirstAt(ds, i) < |ds| then FirstAt(ds, i) else if d.index == i then |ds| else |ds| + 1
  {
    var k, n := FirstAt(ds, i), FirstAt(ds + [d], i);
    assert forall j :: 0 <= j < |ds| ==> (ds + [d])[j] == ds[j];
    assert (ds + [d])[|ds|] == d;
    if k < |ds| {
      assert (ds + [d])[k].index == i;
    }
  }

  /** In the order of their first deltas, and just the tools that have one. */
  ghost predicate AreSeen(seen: seq<int>, ds: seq<ToolDelta>) {
    && (forall i :: i in seen <==> FirstAt(ds, i) < |ds|)
    && forall m, n :: 0 <= m < n < |seen| ==> FirstAt(ds, seen[m]) < FirstAt(ds, seen[n])
  }

  lemma SeenSnoc(seen: seq<int>, ds: seq<ToolDelta>, d: ToolDelta)
    requires AreSeen(seen, ds)
    ensures AreSeen(if d.index in seen then seen else seen + [d.index], ds + [d])
  {
    hide FirstAt;
    forall i ensures FirstAt(ds + [d], i) == if FirstAt(ds, i) < |ds| then FirstAt(ds, i) else if d.index == i then |ds| else |ds| + 1 {
      FirstAtSnoc(ds, d, i);
    }
    forall m | 0 <= m < |seen| ensures FirstAt(ds + [d], seen[m]) == FirstAt(ds, seen[m]) < |ds| {
      assert seen[m] in seen;
    }
  }

  /** The tools seen are those with a delta, each once, in the order of their first deltas. */
  lemma {:induction false} SeenInOrder(ds: seq<ToolDelta>)
    ensures AreSeen(FirstSeen(ds), ds)
  {
    if ds != [] {
      var p, d := ds[..|ds| - 1], ds[|ds| - 1];
      SeenInOrder(p);
      assert p + [d] == ds;
      SeenSnoc(FirstSeen(p), p, d);
    }
  }

  /** The response of any stream: text joined, the reason, model and usage given last, and one call per tool, in the order
      of their first deltas, made of the tool's own deltas. */
  lemma StreamFields(chunks: seq<Chunk>, valid: string -> bool) returns (seen: seq<int>)
    ensures AreSeen(seen, AllDeltas(chunks))
    ensures var (r, model) := Reassembled(chunks, valid);
            var cs, ds := Choices(chunks), AllDeltas(chunks);
            && r.finalText == Text.Join(TextPieces(cs), "") && r.stopReason == LastGiven(Finishes(cs)) && model == LastGiven(Models(chunks))
            && r.usage == (if Usages(chunks) == [] then None else Usages(chunks)[|Usages(chunks)| - 1].ToNeutral())
            && |r.toolCalls| == |seen|
            && (forall k :: 0 <= k < |seen| ==> IsMadeOf(r.toolCalls[k], Own(ds, seen[k]), valid))
            && |r.output| == 1 && r.output[0].role == "assistant"
            && r.output[0].content == (if r.finalText == "" then [] else [Plain(Text, r.finalText)]) + CallBlocks(r.toolCalls)
  {
    var cs, ds := Choices(chunks), AllDeltas(chunks);
    seen := FirstSeen(ds);
    SeenInOrder(ds);
    var calls := CallsOf(ds, seen, valid);
    ResponseHoldsCalls(chunks, valid);
    StreamText(chunks, valid);
    LastFinishCounts(cs);
    LastModelCounts(chunks);
    LastUsageCounts(chunks);
    forall k | 0 <= k < |calls| ensures IsMadeOf(calls[k], Own(ds, seen[k]), valid) {
      ToolIsMade(ds, seen[k], valid);
    }
  }

  lemma StreamText(chunks: seq<Chunk>, valid: string -> bool)
    ensures Reassembled(chunks, valid).0.finalText == TextOf(Choices(chunks)) == Text.Join(TextPieces(Choices(chunks)), "")
  {
    var text, calls := TextOf(Choices(chunks)), CallsOf(AllDeltas(chunks), FirstSeen(AllDeltas(chunks)), valid);
    CallBlocksCarryCalls(TextBlocks(text), calls);
    TextBlocksJoin(text);
    PiecesJoinToText(Choices(chunks));
    ConcatIsJoin(TextPieces(Choices(chunks)));
  }
}
